/** Membership: what a peer has been told, or is about to be told, adds up to
    its room in every reachable interleaving. */
module SignalingMembership {
  import opened Options
  import opened SignalingRooms
  import opened SignalingSafety

  function JoinIds(queue: seq<ServerMsg>): set<Id> {
    set m | m in queue && m.Join? :: m.peer.id
  }

  function LeftIds(queue: seq<ServerMsg>): set<Id> {
    set m | m in queue && m.Left? :: m.peerId
  }

  function PendingJoins(st: State, p: Id): set<Id> {
    set c | c in st.conns && st.conns[c].phase.Joining? && p in st.conns[c].phase.todo
  }

  function PendingLefts(st: State, p: Id): set<Id> {
    set c | c in st.conns && st.conns[c].phase.Leaving? && p in st.conns[c].phase.todo
  }

  /** Snapshot of the Hello and Joins, delivered or pending. */
  function Told(st: State, p: Id): set<Id>
    requires p in st.conns
  {
    st.conns[p].snapshot.Keys + JoinIds(st.conns[p].queue) + PendingJoins(st, p)
  }

  function ToldGone(st: State, p: Id): set<Id>
    requires p in st.conns
  {
    LeftIds(st.conns[p].queue) + PendingLefts(st, p)
  }

  /** Insensitive to the order in which the messages arrive. */
  predicate Balanced(st: State, p: Id) {
    p in st.conns && st.conns[p].open && IsMember(st, p) ==>
      Told(st, p) - ToldGone(st, p) == RoomIn(st.rooms, st.conns[p].group).Keys - {p}
  }

  predicate AllBalanced(st: State) {
    forall p :: p in st.conns ==> Balanced(st, p)
  }

  lemma {:induction false} IdsOneMore(queue: seq<ServerMsg>, msg: ServerMsg)
    ensures JoinIds(queue + [msg]) == JoinIds(queue) + if msg.Join? then {msg.peer.id} else {}
    ensures LeftIds(queue + [msg]) == LeftIds(queue) + if msg.Left? then {msg.peerId} else {}
  {
    var now := queue + [msg];
    assert forall m :: m in now <==> m in queue || m == msg;
    if msg.Join? {
      assert msg in now;
    } else if msg.Left? {
      assert msg in now;
    }
    forall c | c in JoinIds(queue)
      ensures c in JoinIds(now)
    {
      var m :| m in queue && m.Join? && m.peer.id == c;
      assert m in now;
    }
    forall c | c in LeftIds(queue)
      ensures c in LeftIds(now)
    {
      var m :| m in queue && m.Left? && m.peerId == c;
      assert m in now;
    }
  }

  /** Nothing is told about a connection that does not exist yet, nor to it. */
  lemma {:induction false} NothingAboutNew(st: State, p: Id, id: Id)
    requires Legal(st) && id !in st.conns && p in st.conns
    ensures id !in Told(st, p) && id !in ToldGone(st, p)
    ensures PendingJoins(st, id) == {} && PendingLefts(st, id) == {}
  {
    forall m | m in st.conns[p].queue
      ensures (m.Join? ==> m.peer.id in st.conns) && (m.Left? ==> m.peerId in st.conns)
    {
      assert MayReach(st, m, p);
    }
    NothingPendingToNew(st, id);
  }

  lemma {:induction false} NothingPendingToNew(st: State, id: Id)
    requires Legal(st) && id !in st.conns
    ensures PendingJoins(st, id) == {} && PendingLefts(st, id) == {}
  {
    forall c | c in PendingJoins(st, id)
      ensures false
    {
      assert Owes(st, c, Join(SelfInfo(st, c)), id);
    }
    forall c | c in PendingLefts(st, id)
      ensures false
    {
      assert Owes(st, c, Left(c), id);
    }
  }

  lemma {:induction false} SetsMove(told: set<Id>, gone: set<Id>, room: set<Id>, p: Id, gained: set<Id>, lost: set<Id>)
    requires told - gone == room - {p}
    requires gained !! gone && gained !! lost && p !in gained
    ensures (told + gained) - (gone + lost) == (room + gained - lost) - {p}
  {
    forall x
      ensures x in (told + gained) - (gone + lost) <==> x in (room + gained - lost) - {p}
    {
      assert x in told - gone <==> x in room - {p};
    }
  }

  /** If the told and the room gain or lose the same ids, the balance stays. */
  lemma {:induction false} BalanceMoves(a: State, b: State, p: Id, gained: set<Id>, lost: set<Id>)
    requires p in a.conns && p in b.conns && a.conns[p] == b.conns[p] && Balanced(a, p)
    requires IsMember(b, p) ==> IsMember(a, p)
    requires PendingJoins(b, p) == PendingJoins(a, p) + gained && PendingLefts(b, p) == PendingLefts(a, p) + lost
    requires gained !! ToldGone(a, p) && gained !! lost && p !in gained
    requires RoomIn(b.rooms, a.conns[p].group).Keys == RoomIn(a.rooms, a.conns[p].group).Keys + gained - lost
    ensures Balanced(b, p)
  {
    assert Told(b, p) == Told(a, p) + gained;
    assert ToldGone(b, p) == ToldGone(a, p) + lost;
    if a.conns[p].open && IsMember(a, p) {
      SetsMove(Told(a, p), ToldGone(a, p), RoomIn(a.rooms, a.conns[p].group).Keys, p, gained, lost);
    }
  }

  lemma {:induction false} PendingOneMore(st: State, next: State, id: Id, conn: Conn, p: Id)
    requires id !in st.conns && next.conns == st.conns[id := conn] && !conn.phase.Leaving?
    ensures PendingJoins(next, p) == PendingJoins(st, p)
              + (if conn.phase.Joining? && p in conn.phase.todo then {id} else {})
    ensures PendingLefts(next, p) == PendingLefts(st, p) + {}
  {
  }

  lemma {:induction false} ConnectPending(limits: Limits, st: State, id: Id, group: Group, info: Info, p: Id)
    requires id !in st.conns
    ensures var next, told := Next(limits, st, Connect(id, group, info)),
            Admits(limits, st.rooms, st.counts, group) && p in RoomIn(st.rooms, group);
            && PendingJoins(next, p) == PendingJoins(st, p) + (if told then {id} else {})
            && PendingLefts(next, p) == PendingLefts(st, p) + {}
  {
    var next := Next(limits, st, Connect(id, group, info));
    PendingOneMore(st, next, id, next.conns[id], p);
  }

  lemma {:induction false} ConnectRoom(limits: Limits, st: State, id: Id, group: Group, info: Info, p: Id)
    requires RoomsMatch(st) && id !in st.conns && p in st.conns
    requires IsMember(Next(limits, st, Connect(id, group, info)), p)
    ensures var next, ok := Next(limits, st, Connect(id, group, info)), Admits(limits, st.rooms, st.counts, group);
            && IsMember(st, p)
            && RoomIn(next.rooms, st.conns[p].group).Keys
               == RoomIn(st.rooms, st.conns[p].group).Keys
                  + (if ok && st.conns[p].group == group then {id} else {}) - {}
            && (p in RoomIn(st.rooms, group) <==> st.conns[p].group == group)
  {
  }

  lemma {:induction false} ConnectBalances(limits: Limits, st: State, id: Id, group: Group, info: Info, p: Id)
    requires Legal(st) && AllBalanced(st) && id !in st.conns && p in st.conns
    ensures Balanced(Next(limits, st, Connect(id, group, info)), p)
  {
    var next := Next(limits, st, Connect(id, group, info));
    if IsMember(next, p) {
      ConnectPending(limits, st, id, group, info, p);
      ConnectRoom(limits, st, id, group, info, p);
      NothingAboutNew(st, p, id);
      var gained := if Admits(limits, st.rooms, st.counts, group) && st.conns[p].group == group then {id} else {};
      BalanceMoves(st, next, p, gained, {});
    }
  }

  lemma {:induction false} NewcomerBalances(limits: Limits, st: State, id: Id, group: Group, info: Info)
    requires Legal(st) && id !in st.conns
    ensures Balanced(Next(limits, st, Connect(id, group, info)), id)
  {
    var next := Next(limits, st, Connect(id, group, info));
    NothingPendingToNew(st, id);
    assert JoinIds([]) == {} && LeftIds([]) == {};
    assert id !in RoomIn(st.rooms, group);
    assert PendingJoins(next, id) == {} && PendingLefts(next, id) == {};
  }

  /** Who stays in the room is to be told, and only about the one who leaves. */
  lemma {:induction false} LeavePending(limits: Limits, st: State, id: Id, p: Id)
    requires Legal(st) && Enabled(st, Leave(id)) && p in st.conns
    requires (p == id || IsMember(Next(limits, st, Leave(id)), p))
    ensures var next, lost := Next(limits, st, Leave(id)),
            if p != id && st.conns[p].group == st.conns[id].group then {id} else {};
            && PendingJoins(next, p) == PendingJoins(st, p) + {}
            && PendingLefts(next, p) == PendingLefts(st, p) + lost
  {
  }

  lemma {:induction false} LeaveRoom(limits: Limits, st: State, id: Id, p: Id)
    requires Legal(st) && Enabled(st, Leave(id)) && p in st.conns && p != id && IsMember(Next(limits, st, Leave(id)), p)
    ensures var next, lost := Next(limits, st, Leave(id)), if st.conns[p].group == st.conns[id].group then {id} else {};
            && IsMember(st, p)
            && RoomIn(next.rooms, st.conns[p].group).Keys == RoomIn(st.rooms, st.conns[p].group).Keys + {} - lost
  {
  }

  lemma {:induction false} LeaveBalances(limits: Limits, st: State, id: Id, p: Id)
    requires Legal(st) && AllBalanced(st) && Enabled(st, Leave(id)) && p in st.conns
    ensures Balanced(Next(limits, st, Leave(id)), p)
  {
    var next := Next(limits, st, Leave(id));
    if p != id && IsMember(next, p) {
      assert Balanced(st, p);
      LeavePending(limits, st, id, p);
      LeaveRoom(limits, st, id, p);
      BalanceMoves(st, next, p, {}, if st.conns[p].group == st.conns[id].group then {id} else {});
    }
  }

  /** A send moves an id from pending to queued. */
  lemma {:induction false} SendJoinPending(limits: Limits, st: State, id: Id, to: Id, p: Id)
    requires Enabled(st, SendJoin(id, to)) && p in st.conns
    ensures var next := Next(limits, st, SendJoin(id, to));
            && PendingLefts(next, p) == PendingLefts(st, p)
            && PendingJoins(next, p) == (if p == to then PendingJoins(st, p) - {id} else PendingJoins(st, p))
            && (p == to ==> id in PendingJoins(st, p))
  {
  }

  lemma {:induction false} SendLeftPending(limits: Limits, st: State, id: Id, to: Id, p: Id)
    requires Enabled(st, SendLeft(id, to)) && p in st.conns
    ensures var next := Next(limits, st, SendLeft(id, to));
            && PendingJoins(next, p) == PendingJoins(st, p)
            && PendingLefts(next, p) == (if p == to then PendingLefts(st, p) - {id} else PendingLefts(st, p))
            && (p == to ==> id in PendingLefts(st, p))
  {
  }

  /** What a sending step does to the queue of `p`. */
  lemma {:induction false} QueuedIds(st: State, next: State, id: Id, conn: Conn, to: Id, msg: ServerMsg, p: Id)
    requires id in st.conns && p in st.conns && next.conns == Enqueue(st.conns[id := conn], to, msg)
    requires conn.queue == st.conns[id].queue && conn.open == st.conns[id].open
    requires conn.snapshot == st.conns[id].snapshot
    ensures p in next.conns && next.conns[p].open == st.conns[p].open && next.conns[p].snapshot == st.conns[p].snapshot
    ensures var sent := p == to && st.conns[p].open;
            && JoinIds(next.conns[p].queue) == JoinIds(st.conns[p].queue)
               + (if sent && msg.Join? then {msg.peer.id} else {})
            && LeftIds(next.conns[p].queue) == LeftIds(st.conns[p].queue)
               + (if sent && msg.Left? then {msg.peerId} else {})
  {
    IdsOneMore(st.conns[p].queue, msg);
  }

  lemma {:induction false} SendJoinQueued(limits: Limits, st: State, id: Id, to: Id, p: Id)
    requires Enabled(st, SendJoin(id, to)) && p in st.conns
    ensures var next := Next(limits, st, SendJoin(id, to));
            && p in next.conns && next.conns[p].open == st.conns[p].open
            && next.conns[p].snapshot == st.conns[p].snapshot
            && LeftIds(next.conns[p].queue) == LeftIds(st.conns[p].queue)
            && JoinIds(next.conns[p].queue) == JoinIds(st.conns[p].queue)
               + (if p == to && st.conns[p].open then {id} else {})
  {
    var conn := st.conns[id].(phase := Joining(st.conns[id].phase.todo - {to}));
    QueuedIds(st, Next(limits, st, SendJoin(id, to)), id, conn, to, Join(SelfInfo(st, id)), p);
  }

  lemma {:induction false} SendLeftQueued(limits: Limits, st: State, id: Id, to: Id, p: Id)
    requires Enabled(st, SendLeft(id, to)) && p in st.conns
    ensures var next := Next(limits, st, SendLeft(id, to));
            && p in next.conns && next.conns[p].open == st.conns[p].open
            && next.conns[p].snapshot == st.conns[p].snapshot
            && JoinIds(next.conns[p].queue) == JoinIds(st.conns[p].queue)
            && LeftIds(next.conns[p].queue) == LeftIds(st.conns[p].queue)
               + (if p == to && st.conns[p].open then {id} else {})
  {
    var conn := st.conns[id].(phase := Leaving(st.conns[id].phase.todo - {to}));
    QueuedIds(st, Next(limits, st, SendLeft(id, to)), id, conn, to, Left(id), p);
  }

  /** Same ids told and gone, same room: the balance stays. */
  lemma {:induction false} SameSetsBalance(a: State, b: State, p: Id)
    requires Balanced(a, p) && p in a.conns && p in b.conns && b.conns[p].group == a.conns[p].group
    requires b.conns[p].open ==> a.conns[p].open && Told(b, p) == Told(a, p) && ToldGone(b, p) == ToldGone(a, p)
    requires RoomIn(b.rooms, a.conns[p].group).Keys == RoomIn(a.rooms, a.conns[p].group).Keys
    ensures Balanced(b, p)
  {
    assert p in RoomIn(b.rooms, a.conns[p].group) <==> p in RoomIn(b.rooms, a.conns[p].group).Keys;
  }

  lemma {:induction false} SendJoinBalances(limits: Limits, st: State, id: Id, to: Id, p: Id)
    requires AllBalanced(st) && Enabled(st, SendJoin(id, to)) && p in st.conns
    ensures Balanced(Next(limits, st, SendJoin(id, to)), p)
  {
    assert Balanced(st, p);
    SendJoinPending(limits, st, id, to, p);
    SendJoinQueued(limits, st, id, to, p);
    QuietStepKeepsConn(limits, st, SendJoin(id, to), p);
    SameSetsBalance(st, Next(limits, st, SendJoin(id, to)), p);
  }

  lemma {:induction false} SendLeftBalances(limits: Limits, st: State, id: Id, to: Id, p: Id)
    requires AllBalanced(st) && Enabled(st, SendLeft(id, to)) && p in st.conns
    ensures Balanced(Next(limits, st, SendLeft(id, to)), p)
  {
    assert Balanced(st, p);
    SendLeftPending(limits, st, id, to, p);
    SendLeftQueued(limits, st, id, to, p);
    QuietStepKeepsConn(limits, st, SendLeft(id, to), p);
    SameSetsBalance(st, Next(limits, st, SendLeft(id, to)), p);
  }

  predicate IsOtherStep(step: Step) {
    !step.Connect? && !step.Leave? && !step.SendJoin? && !step.SendLeft?
  }

  lemma {:induction false} PostQueued(limits: Limits, st: State, id: Id, to: Id, p: Id)
    requires Legal(st) && Enabled(st, SendPost(id, to)) && p in st.conns
    ensures var next := Next(limits, st, SendPost(id, to));
            && p in next.conns && next.conns[p].open == st.conns[p].open
            && next.conns[p].snapshot == st.conns[p].snapshot
            && JoinIds(next.conns[p].queue) == JoinIds(st.conns[p].queue)
            && LeftIds(next.conns[p].queue) == LeftIds(st.conns[p].queue)
  {
    var post := st.conns[id].post.value;
    if post.todo != {} {
      var conn := st.conns[id].(post := Some(post.(todo := post.todo - {to})));
      QueuedIds(st, Next(limits, st, SendPost(id, to)), id, conn, to, post.msg, p);
    }
  }

  lemma {:induction false} OtherStepsKeepIds(limits: Limits, st: State, step: Step, p: Id)
    requires Legal(st) && Enabled(st, step) && IsOtherStep(step) && p in st.conns
    ensures var next := Next(limits, st, step);
            && p in next.conns && (next.conns[p].open ==> st.conns[p].open)
            && next.conns[p].snapshot == st.conns[p].snapshot
            && JoinIds(next.conns[p].queue) == JoinIds(st.conns[p].queue)
            && LeftIds(next.conns[p].queue) == LeftIds(st.conns[p].queue)
  {
    match step
    case SendHello(id) =>
      var hello := Hello(SelfInfo(st, id), st.conns[id].snapshot);
      QueuedIds(st, Next(limits, st, step), id, st.conns[id].(phase := Running), id, hello, p);
    case SendPost(id, to) => PostQueued(limits, st, id, to, p);
    case _ =>
  }

  lemma {:induction false} PhaseStays(limits: Limits, st: State, step: Step, c: Id)
    requires Enabled(st, step) && IsOtherStep(step)
    ensures var next := Next(limits, st, step);
            && (c in next.conns <==> c in st.conns)
            && (c in st.conns ==>
                  || next.conns[c].phase == st.conns[c].phase
                  || (st.conns[c].phase == Joining({}) && next.conns[c].phase == Running))
  {
  }

  lemma {:induction false} PendingStays(limits: Limits, st: State, step: Step, p: Id, c: Id)
    requires Enabled(st, step) && IsOtherStep(step)
    ensures c in PendingJoins(Next(limits, st, step), p) <==> c in PendingJoins(st, p)
    ensures c in PendingLefts(Next(limits, st, step), p) <==> c in PendingLefts(st, p)
  {
    PhaseStays(limits, st, step, c);
  }

  lemma {:induction false} OtherStepsKeepPending(limits: Limits, st: State, step: Step, p: Id)
    requires Enabled(st, step) && IsOtherStep(step)
    ensures PendingJoins(Next(limits, st, step), p) == PendingJoins(st, p)
    ensures PendingLefts(Next(limits, st, step), p) == PendingLefts(st, p)
  {
    forall c: Id
      ensures c in PendingJoins(Next(limits, st, step), p) <==> c in PendingJoins(st, p)
      ensures c in PendingLefts(Next(limits, st, step), p) <==> c in PendingLefts(st, p)
    {
      PendingStays(limits, st, step, p, c);
    }
  }

  lemma {:induction false} OtherStepsBalance(limits: Limits, st: State, step: Step, p: Id)
    requires Legal(st) && AllBalanced(st) && Enabled(st, step) && IsOtherStep(step) && p in st.conns
    ensures Balanced(Next(limits, st, step), p)
  {
    assert Balanced(st, p);
    OtherStepsKeepIds(limits, st, step, p);
    OtherStepsKeepPending(limits, st, step, p);
    QuietStepKeepsConn(limits, st, step, p);
    QuietStepKeepsRoom(limits, st, step, st.conns[p].group);
    SameSetsBalance(st, Next(limits, st, step), p);
  }

  lemma {:induction false} StepBalances(limits: Limits, st: State, step: Step)
    requires Legal(st) && AllBalanced(st) && Enabled(st, step)
    ensures AllBalanced(Next(limits, st, step))
  {
    forall p | p in Next(limits, st, step).conns
      ensures Balanced(Next(limits, st, step), p)
    {
      match step
      case Connect(id, group, info) =>
        if p == id {
          NewcomerBalances(limits, st, id, group, info);
        } else {
          ConnectBalances(limits, st, id, group, info, p);
        }
      case Leave(id) => LeaveBalances(limits, st, id, p);
      case SendJoin(id, to) => SendJoinBalances(limits, st, id, to, p);
      case SendLeft(id, to) => SendLeftBalances(limits, st, id, to, p);
      case _ => OtherStepsBalance(limits, st, step, p);
    }
  }

  // ----- Nobody is gone who was not there -----

  /** A queued Left is about a peer of the snapshot or of a queued Join; for an
      open queue, so is a pending one, up to Joins that are pending too. */
  predicate GoneWereTold(st: State, p: Id) {
    p in st.conns ==>
      && LeftIds(st.conns[p].queue) <= st.conns[p].snapshot.Keys + JoinIds(st.conns[p].queue)
      && (st.conns[p].open ==> PendingLefts(st, p) <= Told(st, p))
  }

  predicate AllGoneWereTold(st: State) {
    forall p :: p in st.conns ==> GoneWereTold(st, p)
  }

  lemma {:induction false} ConnectGone(limits: Limits, st: State, id: Id, group: Group, info: Info, p: Id)
    requires Legal(st) && AllGoneWereTold(st) && id !in st.conns
    requires p in Next(limits, st, Connect(id, group, info)).conns
    ensures GoneWereTold(Next(limits, st, Connect(id, group, info)), p)
  {
    var next := Next(limits, st, Connect(id, group, info));
    ConnectPending(limits, st, id, group, info, p);
    if p == id {
      NothingPendingToNew(st, id);
      assert LeftIds([]) == {};
    } else {
      assert GoneWereTold(st, p);
      assert next.conns[p] == st.conns[p];
    }
  }

  /** The one who leaves is in the room, and so was told of. */
  lemma {:induction false} LeaveGone(limits: Limits, st: State, id: Id, p: Id)
    requires Legal(st) && AllBalanced(st) && AllGoneWereTold(st) && Enabled(st, Leave(id)) && p in st.conns
    ensures GoneWereTold(Next(limits, st, Leave(id)), p)
  {
    var next := Next(limits, st, Leave(id));
    assert GoneWereTold(st, p) && Balanced(st, p);
    if p == id || IsMember(next, p) {
      LeavePending(limits, st, id, p);
      if p != id && st.conns[p].open && st.conns[p].group == st.conns[id].group {
        LeaveRoom(limits, st, id, p);
        assert id in RoomIn(st.rooms, st.conns[p].group).Keys - {p};
      }
    } else {
      OutsidersHearNothing(limits, st, id, p);
    }
  }

  lemma {:induction false} OutsidersHearNothing(limits: Limits, st: State, id: Id, p: Id)
    requires Legal(st) && Enabled(st, Leave(id)) && p in st.conns && p != id
    requires !IsMember(Next(limits, st, Leave(id)), p)
    ensures var next := Next(limits, st, Leave(id));
            PendingJoins(next, p) == PendingJoins(st, p) && PendingLefts(next, p) == PendingLefts(st, p)
  {
    assert RoomsMatch(Next(limits, st, Leave(id))) by {
      StepRoomsMatch(limits, st, Leave(id));
    }
  }

  lemma {:induction false} SendJoinGone(limits: Limits, st: State, id: Id, to: Id, p: Id)
    requires AllGoneWereTold(st) && Enabled(st, SendJoin(id, to)) && p in st.conns
    ensures GoneWereTold(Next(limits, st, SendJoin(id, to)), p)
  {
    assert GoneWereTold(st, p);
    SendJoinPending(limits, st, id, to, p);
    SendJoinQueued(limits, st, id, to, p);
  }

  lemma {:induction false} SendLeftGone(limits: Limits, st: State, id: Id, to: Id, p: Id)
    requires AllGoneWereTold(st) && Enabled(st, SendLeft(id, to)) && p in st.conns
    ensures GoneWereTold(Next(limits, st, SendLeft(id, to)), p)
  {
    assert GoneWereTold(st, p);
    SendLeftPending(limits, st, id, to, p);
    SendLeftQueued(limits, st, id, to, p);
    assert id !in PendingJoins(st, p);
  }

  lemma {:induction false} OtherStepsGone(limits: Limits, st: State, step: Step, p: Id)
    requires Legal(st) && AllGoneWereTold(st) && Enabled(st, step) && IsOtherStep(step) && p in st.conns
    ensures GoneWereTold(Next(limits, st, step), p)
  {
    assert GoneWereTold(st, p);
    OtherStepsKeepIds(limits, st, step, p);
    OtherStepsKeepPending(limits, st, step, p);
  }

  lemma {:induction false} StepGone(limits: Limits, st: State, step: Step)
    requires Legal(st) && AllBalanced(st) && AllGoneWereTold(st) && Enabled(st, step)
    ensures AllGoneWereTold(Next(limits, st, step))
  {
    forall p | p in Next(limits, st, step).conns ensures GoneWereTold(Next(limits, st, step), p) {
      match step
      case Connect(id, group, info) => ConnectGone(limits, st, id, group, info, p);
      case Leave(id) => LeaveGone(limits, st, id, p);
      case SendJoin(id, to) => SendJoinGone(limits, st, id, to, p);
      case SendLeft(id, to) => SendLeftGone(limits, st, id, to, p);
      case _ => OtherStepsGone(limits, st, step, p);
    }
  }

  // ----- Whole runs -----

  function Exec(limits: Limits, st: State, run: seq<Step>): Option<State>
    decreases run
  {
    if run == [] then Some(st)
    else if !Enabled(st, run[0]) then None
    else Exec(limits, Next(limits, st, run[0]), run[1..])
  }

  ghost predicate Sound(limits: Limits, st: State) {
    WithinLimits(limits, st) && Legal(st) && AllBalanced(st) && AllGoneWereTold(st)
  }

  lemma {:induction false} StepIsSound(limits: Limits, st: State, step: Step)
    requires Sound(limits, st) && Enabled(st, step)
    ensures Sound(limits, Next(limits, st, step))
  {
    StepWithinLimits(limits, st, step);
    StepLegal(limits, st, step);
    StepBalances(limits, st, step);
    StepGone(limits, st, step);
  }

  lemma {:induction false} RunsAreSound(limits: Limits, st: State, run: seq<Step>)
    requires Sound(limits, st) && Exec(limits, st, run).Some?
    ensures Sound(limits, Exec(limits, st, run).value)
    decreases run
  {
    if run != [] {
      StepIsSound(limits, st, run[0]);
      RunsAreSound(limits, Next(limits, st, run[0]), run[1..]);
    }
  }

  lemma {:induction false} Reached(limits: Limits, run: seq<Step>) returns (st: State)
    requires Exec(limits, START, run).Some?
    ensures st == Exec(limits, START, run).value && Sound(limits, st)
  {
    assert Sound(limits, START);
    RunsAreSound(limits, START, run);
    st := Exec(limits, START, run).value;
  }

  /** For every member with an open queue: the ids it was or will be told of,
      less those it was or will be told have left, are its room without itself. */
  lemma {:induction false} MembershipAddsUp(limits: Limits, run: seq<Step>, p: Id)
    requires Exec(limits, START, run).Some?
    requires var st := Exec(limits, START, run).value; IsMember(st, p) && st.conns[p].open
    ensures var st := Exec(limits, START, run).value;
            Told(st, p) - ToldGone(st, p) == RoomIn(st.rooms, st.conns[p].group).Keys - {p}
  {
    var st := Reached(limits, run);
    assert Balanced(st, p);
  }

  /** An open queue is told, or will be told, of nobody's leaving who it was
      not told of, or will be told of. */
  lemma {:induction false} OnlyToldAreGone(limits: Limits, run: seq<Step>, p: Id)
    requires Exec(limits, START, run).Some?
    requires p in Exec(limits, START, run).value.conns && Exec(limits, START, run).value.conns[p].open
    ensures var st := Exec(limits, START, run).value;
            ToldGone(st, p) <= Told(st, p)
  {
    var st := Reached(limits, run);
    assert GoneWereTold(st, p);
  }

  /** Every queued Left is about a peer of the snapshot or comes after the Join
      of that peer, and never before a Join of it; a queued Hello carries the
      snapshot the membership is counted from. */
  lemma {:induction false} JoinBeforeLeft(limits: Limits, run: seq<Step>, p: Id, j: nat)
    requires Exec(limits, START, run).Some? && p in Exec(limits, START, run).value.conns
    requires j < |Exec(limits, START, run).value.conns[p].queue|
    ensures var conn := Exec(limits, START, run).value.conns[p];
            var msg := conn.queue[j];
            && (msg.Left? ==>
                  && (msg.peerId in conn.snapshot || exists i :: 0 <= i < j && IsJoinOf(conn.queue[i], msg.peerId))
                  && forall i :: j < i < |conn.queue| ==> !IsJoinOf(conn.queue[i], msg.peerId))
            && (msg.Hello? ==> msg.client == ClientInfo(p, conn.info) && msg.peers == conn.snapshot)
  {
    var st := Reached(limits, run);
    var conn := st.conns[p];
    assert InOrder(conn.queue) && GoneWereTold(st, p);
    assert conn.queue[j] in conn.queue;
    assert MayReach(st, conn.queue[j], p);
    if conn.queue[j].Left? {
      var id := conn.queue[j].peerId;
      assert id in LeftIds(conn.queue);
      if id !in conn.snapshot {
        var m :| m in conn.queue && m.Join? && m.peer.id == id;
        var i :| 0 <= i < |conn.queue| && conn.queue[i] == m;
        assert IsJoinOf(conn.queue[i], id);
      }
    }
  }

  predicate IsJoinOf(msg: ServerMsg, id: Id) {
    msg.Join? && msg.peer.id == id
  }

  function OriginOf(msg: ServerMsg, p: Id): Id {
    match msg
    case Join(peer) => peer.id
    case Update(peer) => peer.id
    case Left(id) => id
    case Offer(peer, _, _) => peer.id
    case Answer(peer, _, _) => peer.id
    case Hello(client, _) => client.id
    case Error(_) => p
  }

  /** Isolation: everything queued to a peer comes from a connection of its own
      group, with the data that one registered or asked to publish, and offers
      and answers are requests their named sender made for exactly this peer,
      with session and description untouched. */
  lemma {:induction false} RoomsAreIsolated(limits: Limits, run: seq<Step>, p: Id, msg: ServerMsg)
    requires Exec(limits, START, run).Some? && p in Exec(limits, START, run).value.conns
    requires msg in Exec(limits, START, run).value.conns[p].queue
    ensures var st := Exec(limits, START, run).value;
            && InGroup(st, OriginOf(msg, p), st.conns[p].group)
            && (msg.Join? ==> msg.peer.info == st.conns[msg.peer.id].info)
            && (msg.Update? ==> RequestUpdate(msg.peer.info) in st.conns[msg.peer.id].requests)
            && (msg.Offer? ==> RequestOffer(p, msg.sessionId, msg.sdp) in st.conns[msg.peer.id].requests
                               && msg.peer.info == st.conns[msg.peer.id].info)
            && (msg.Answer? ==> RequestAnswer(p, msg.sessionId, msg.sdp) in st.conns[msg.peer.id].requests
                                && msg.peer.info == st.conns[msg.peer.id].info)
  {
    var st := Reached(limits, run);
    assert MayReach(st, msg, p);
  }

  /** No room outgrows its limit and no group is served more requests than
      allowed between two resets. */
  lemma {:induction false} LimitsHold(limits: Limits, run: seq<Step>, group: Group)
    requires Exec(limits, START, run).Some?
    ensures var st := Exec(limits, START, run).value;
            |RoomIn(st.rooms, group)| <= limits.connections && CountIn(st.counts, group) <= limits.requests
  {
    var st := Reached(limits, run);
  }
}

/** Delivery: who gets a Hello, what it says, and what the receiving tasks
    relay, in every reachable interleaving. */
module SignalingDelivery {
  import opened Options
  import opened Seqs
  import opened SignalingRooms
  import opened SignalingSafety
  import opened SignalingMembership

  // ----- The Hello -----

  function Hellos(queue: seq<ServerMsg>): seq<ServerMsg> {
    if queue == [] then []
    else
      var n := |queue| - 1;
      Hellos(queue[..n]) + if queue[n].Hello? then [queue[n]] else []
  }

  lemma {:induction false} HellosOneMore(queue: seq<ServerMsg>, msg: ServerMsg)
    ensures Hellos(queue + [msg]) == Hellos(queue) + if msg.Hello? then [msg] else []
  {
    assert (queue + [msg])[..|queue|] == queue;
  }

  /** A refused peer hears nothing, a joining one no Hello yet, and every other
      one exactly one Hello: with its own data and the snapshot of its room. */
  predicate Greeted(p: Id, conn: Conn) {
    match conn.phase
    case Refused => !conn.open && conn.queue == []
    case Joining(_) => conn.open && Hellos(conn.queue) == []
    case _ => Hellos(conn.queue) == [Hello(ClientInfo(p, conn.info), conn.snapshot)]
  }

  predicate AllGreeted(st: State) {
    forall p :: p in st.conns ==> Greeted(p, st.conns[p])
  }

  lemma {:induction false} EnqueueGreets(conns: map<Id, Conn>, to: Id, msg: ServerMsg, p: Id)
    requires !msg.Hello? && p in conns && Greeted(p, conns[p])
    ensures Greeted(p, Enqueue(conns, to, msg)[p])
  {
    HellosOneMore(conns[p].queue, msg);
  }

  lemma {:induction false} HelloGreets(limits: Limits, st: State, id: Id)
    requires Enabled(st, SendHello(id)) && Greeted(id, st.conns[id])
    ensures Greeted(id, Next(limits, st, SendHello(id)).conns[id])
  {
    var conn := st.conns[id];
    var hello := Hello(ClientInfo(id, conn.info), conn.snapshot);
    var greeted := conn.(phase := Running, queue := conn.queue + [hello]);
    assert Next(limits, st, SendHello(id)).conns[id] == greeted;
    HellosOneMore(conn.queue, hello);
    assert [] + [hello] == [hello];
  }

  lemma {:induction false} StepGreets(limits: Limits, st: State, step: Step, p: Id)
    requires PostsRelay(st) && AllGreeted(st) && Enabled(st, step) && p in Next(limits, st, step).conns
    ensures Greeted(p, Next(limits, st, step).conns[p])
  {
    assert p in st.conns ==> Greeted(p, st.conns[p]);
    match step
    case SendJoin(id, to) =>
      var conn := st.conns[id];
      EnqueueGreets(st.conns[id := conn.(phase := Joining(conn.phase.todo - {to}))], to, Join(SelfInfo(st, id)), p);
    case SendHello(id) =>
      if p == id {
        HelloGreets(limits, st, id);
      }
    case SendPost(id, to) =>
      var post := st.conns[id].post.value;
      if post.todo != {} {
        var paid := st.conns[id].(post := Some(post.(todo := post.todo - {to})));
        EnqueueGreets(st.conns[id := paid], to, post.msg, p);
      }
    case SendLeft(id, to) =>
      var conn := st.conns[id];
      EnqueueGreets(st.conns[id := conn.(phase := Leaving(conn.phase.todo - {to}))], to, Left(id), p);
    case _ =>
  }

  // ----- What the rooms know of their peers -----

  /** The data a peer published last. */
  function LatestInfo(info: Info, requests: seq<Request>): Info {
    if requests == [] then info
    else
      var n := |requests| - 1;
      if requests[n].RequestUpdate? then requests[n].info else LatestInfo(info, requests[..n])
  }

  lemma {:induction false} LatestOneMore(info: Info, requests: seq<Request>, request: Request)
    ensures LatestInfo(info, requests + [request])
            == if request.RequestUpdate? then request.info else LatestInfo(info, requests)
  {
    assert (requests + [request])[..|requests|] == requests;
  }

  predicate IsCurrent(st: State, group: Group, i: Id) {
    i in RoomIn(st.rooms, group) ==>
      && InGroup(st, i, group)
      && RoomIn(st.rooms, group)[i] == LatestInfo(st.conns[i].info, st.conns[i].requests)
  }

  ghost predicate AllCurrent(st: State) {
    forall group, i :: IsCurrent(st, group, i)
  }

  /** Nothing but connecting, leaving and requests changes what is published. */
  lemma {:induction false} OtherStepsKeepInfo(limits: Limits, st: State, step: Step, i: Id)
    requires Enabled(st, step) && !step.Connect? && !step.Leave? && !step.Receive?
    ensures var next := Next(limits, st, step);
      && next.rooms == st.rooms && (i in next.conns <==> i in st.conns)
      && (i in st.conns ==>
            && next.conns[i].group == st.conns[i].group && next.conns[i].info == st.conns[i].info
            && next.conns[i].requests == st.conns[i].requests)
  {
  }

  lemma {:induction false} RequestKeepsCurrent(limits: Limits, st: State, step: Step, group: Group, i: Id)
    requires RoomsMatch(st) && IsCurrent(st, group, i) && Enabled(st, step) && step.Receive?
    ensures IsCurrent(Next(limits, st, step), group, i)
  {
    if step.id == i {
      LatestOneMore(st.conns[i].info, st.conns[i].requests, step.request);
    }
  }

  lemma {:induction false} StepKeepsCurrent(limits: Limits, st: State, step: Step, group: Group, i: Id)
    requires RoomsMatch(st) && AllCurrent(st) && Enabled(st, step)
    ensures IsCurrent(Next(limits, st, step), group, i)
  {
    assert IsCurrent(st, group, i);
    match step
    case Connect(_, _, _) =>
    case Leave(_) =>
    case Receive(_, _) => RequestKeepsCurrent(limits, st, step, group, i);
    case _ => OtherStepsKeepInfo(limits, st, step, i);
  }

  // ----- What is relayed -----

  predicate IsRelay(msg: ServerMsg) {
    msg.Update? || msg.Offer? || msg.Answer? || msg.Error?
  }

  /** The messages in `p`'s queue that the receiving task of `c` put there. */
  function RelaysFrom(queue: seq<ServerMsg>, c: Id, p: Id): seq<ServerMsg> {
    if queue == [] then []
    else
      var n := |queue| - 1;
      RelaysFrom(queue[..n], c, p) + if IsRelay(queue[n]) && OriginOf(queue[n], p) == c then [queue[n]] else []
  }

  lemma {:induction false} RelaysOneMore(queue: seq<ServerMsg>, msg: ServerMsg, c: Id, p: Id)
    ensures RelaysFrom(queue + [msg], c, p)
            == RelaysFrom(queue, c, p) + if IsRelay(msg) && OriginOf(msg, p) == c then [msg] else []
  {
    assert (queue + [msg])[..|queue|] == queue;
  }

  /** What the receiving task of `c` is still sending to `p`. */
  function OwedRelays(st: State, c: Id, p: Id): seq<ServerMsg> {
    if c in st.conns && st.conns[c].post.Some? && p in st.conns[c].post.value.todo then [st.conns[c].post.value.msg]
    else []
  }

  function RelaysTo(st: State, c: Id, p: Id): seq<ServerMsg> {
    RelaysFrom(QueueOf(st, p), c, p) + OwedRelays(st, c, p)
  }

  /** What a step asks the server to pass on from `c` to `p`: an update to the
      other peers of the room, an offer or answer to its target if that is in
      the room, and over the request limit only an error to `c` itself. */
  function Asked(limits: Limits, st: State, step: Step, c: Id, p: Id): seq<ServerMsg> {
    if !step.Receive? || step.id != c || c !in st.conns then []
    else
      var self, group := ClientInfo(c, st.conns[c].info), st.conns[c].group;
      var room := RoomIn(st.rooms, group);
      if CountIn(st.counts, group) >= limits.requests then (if p == c then [Error(429)] else [])
      else if p !in room then []
      else match step.request
        case RequestUpdate(info) => if p != c && c in room then [Update(ClientInfo(c, info))] else []
        case RequestOffer(target, sessionId, sdp) => if target == p then [Offer(self, sessionId, sdp)] else []
        case RequestAnswer(target, sessionId, sdp) => if target == p then [Answer(self, sessionId, sdp)] else []
  }

  function AllAsked(limits: Limits, st: State, run: seq<Step>, c: Id, p: Id): seq<ServerMsg>
    decreases run
  {
    if run == [] || !Enabled(st, run[0]) then []
    else Asked(limits, st, run[0], c, p) + AllAsked(limits, Next(limits, st, run[0]), run[1..], c, p)
  }

  /** A receiving task sends relays in the name of its own peer, and errors to it alone. */
  predicate IsOwnPost(c: Id, post: Post) {
    IsRelay(post.msg) && forall to :: to in post.todo ==> OriginOf(post.msg, to) == c
  }

  predicate PostsOwn(st: State) {
    forall c :: c in st.conns && st.conns[c].post.Some? ==> IsOwnPost(c, st.conns[c].post.value)
  }

  lemma {:induction false} StepPostsOwn(limits: Limits, st: State, step: Step, c: Id)
    requires PostsOwn(st) && Enabled(st, step)
    requires c in Next(limits, st, step).conns && Next(limits, st, step).conns[c].post.Some?
    ensures IsOwnPost(c, Next(limits, st, step).conns[c].post.value)
  {
    assert c in st.conns && st.conns[c].post.Some? ==> IsOwnPost(c, st.conns[c].post.value);
  }

  predicate StillOpen(st: State, p: Id) {
    p in st.conns ==> st.conns[p].open
  }

  lemma {:induction false} OwedToKnown(st: State, c: Id, p: Id)
    requires SendsLegal(st) && p !in st.conns
    ensures OwedRelays(st, c, p) == []
  {
    if OwedRelays(st, c, p) != [] {
      assert Owes(st, c, st.conns[c].post.value.msg, p);
    }
  }

  lemma {:induction false} ConnectRelays(limits: Limits, st: State, step: Step, c: Id, p: Id)
    requires Legal(st) && Enabled(st, step) && step.Connect?
    ensures RelaysTo(Next(limits, st, step), c, p) == RelaysTo(st, c, p)
  {
    if p == step.id {
      OwedToKnown(st, c, p);
    }
  }

  lemma {:induction false} ReceiveRelays(limits: Limits, st: State, step: Step, c: Id, p: Id)
    requires Legal(st) && Enabled(st, step) && step.Receive?
    ensures RelaysTo(Next(limits, st, step), c, p) == RelaysTo(st, c, p) + Asked(limits, st, step, c, p)
  {
    var next := Next(limits, st, step);
    assert QueueOf(next, p) == QueueOf(st, p);
    if step.id == c {
      assert OwedRelays(st, c, p) == [];
      assert OwedRelays(next, c, p) == Asked(limits, st, step, c, p);
    }
  }

  lemma {:induction false} SendPostRelays(limits: Limits, st: State, id: Id, to: Id, c: Id, p: Id)
    requires PostsOwn(st) && Enabled(st, SendPost(id, to)) && p in st.conns && st.conns[p].open
    ensures RelaysTo(Next(limits, st, SendPost(id, to)), c, p) == RelaysTo(st, c, p)
  {
    var post, next, queue := st.conns[id].post.value, Next(limits, st, SendPost(id, to)), st.conns[p].queue;
    assert IsOwnPost(id, post);
    if post.todo == {} {
      assert OwedRelays(next, c, p) == OwedRelays(st, c, p);
    } else if to != p {
      assert next.conns[p].queue == queue && OwedRelays(next, c, p) == OwedRelays(st, c, p);
    } else {
      assert next.conns[p].queue == queue + [post.msg];
      RelaysOneMore(queue, post.msg, c, p);
      if c == id {
        assert OwedRelays(next, c, p) == [] && OwedRelays(st, c, p) == [post.msg];
      } else {
        assert OwedRelays(next, c, p) == OwedRelays(st, c, p);
        assert RelaysFrom(queue, c, p) + [] == RelaysFrom(queue, c, p);
      }
    }
  }

  lemma {:induction false} EnqueueRelaysNone(conns: map<Id, Conn>, to: Id, msg: ServerMsg, c: Id, p: Id)
    requires !IsRelay(msg) && p in conns
    ensures RelaysFrom(Enqueue(conns, to, msg)[p].queue, c, p) == RelaysFrom(conns[p].queue, c, p)
  {
    RelaysOneMore(conns[p].queue, msg, c, p);
  }

  lemma {:induction false} OtherStepRelays(limits: Limits, st: State, step: Step, c: Id, p: Id)
    requires Enabled(st, step) && !step.Connect? && !step.Receive? && !step.SendPost?
    ensures RelaysTo(Next(limits, st, step), c, p) == RelaysTo(st, c, p)
  {
    var next := Next(limits, st, step);
    assert OwedRelays(next, c, p) == OwedRelays(st, c, p);
    if p in st.conns {
      match step
      case SendJoin(id, to) =>
        var conn := st.conns[id];
        EnqueueRelaysNone(st.conns[id := conn.(phase := Joining(conn.phase.todo - {to}))], to, Join(SelfInfo(st, id)),
                          c, p);
      case SendHello(id) =>
        EnqueueRelaysNone(st.conns[id := st.conns[id].(phase := Running)], id,
                          Hello(SelfInfo(st, id), st.conns[id].snapshot), c, p);
      case SendLeft(id, to) =>
        var conn := st.conns[id];
        EnqueueRelaysNone(st.conns[id := conn.(phase := Leaving(conn.phase.todo - {to}))], to, Left(id), c, p);
      case _ =>
    }
  }

  /** Relays to an open queue are neither lost nor made up: a step adds what it
      asks for, and a delivery takes off what it puts on. */
  lemma {:induction false} StepRelays(limits: Limits, st: State, step: Step, c: Id, p: Id)
    requires Legal(st) && PostsOwn(st) && Enabled(st, step) && StillOpen(Next(limits, st, step), p)
    ensures RelaysTo(Next(limits, st, step), c, p) == RelaysTo(st, c, p) + Asked(limits, st, step, c, p)
  {
    match step
    case Connect(_, _, _) => ConnectRelays(limits, st, step, c, p);
    case Receive(_, _) => ReceiveRelays(limits, st, step, c, p);
    case SendPost(id, to) =>
      if p in st.conns {
        SendPostRelays(limits, st, id, to, c, p);
      } else {
        OwedToKnown(st, c, p);
        OwedToKnown(st, id, p);
      }
    case _ => OtherStepRelays(limits, st, step, c, p);
  }

  // ----- Whole runs -----

  ghost predicate Delivers(limits: Limits, st: State) {
    Sound(limits, st) && AllGreeted(st) && AllCurrent(st) && PostsOwn(st)
  }

  lemma {:induction false} StepDelivers(limits: Limits, st: State, step: Step)
    requires Delivers(limits, st) && Enabled(st, step)
    ensures Delivers(limits, Next(limits, st, step))
  {
    var next := Next(limits, st, step);
    StepIsSound(limits, st, step);
    forall p | p in next.conns ensures Greeted(p, next.conns[p]) {
      StepGreets(limits, st, step, p);
    }
    forall group, i ensures IsCurrent(next, group, i) {
      StepKeepsCurrent(limits, st, step, group, i);
    }
    forall c | c in next.conns && next.conns[c].post.Some? ensures IsOwnPost(c, next.conns[c].post.value) {
      StepPostsOwn(limits, st, step, c);
    }
  }

  lemma {:induction false} RunsDeliver(limits: Limits, st: State, run: seq<Step>)
    requires Delivers(limits, st) && Exec(limits, st, run).Some?
    ensures Delivers(limits, Exec(limits, st, run).value)
    decreases run
  {
    if run != [] {
      StepDelivers(limits, st, run[0]);
      RunsDeliver(limits, Next(limits, st, run[0]), run[1..]);
    }
  }

  lemma {:induction false} WasOpen(limits: Limits, st: State, run: seq<Step>, p: Id)
    requires Exec(limits, st, run).Some? && StillOpen(Exec(limits, st, run).value, p)
    ensures StillOpen(st, p)
    decreases run
  {
    if run != [] {
      WasOpen(limits, Next(limits, st, run[0]), run[1..], p);
    }
  }

  lemma {:induction false} RelaysAddUp(limits: Limits, st: State, run: seq<Step>, c: Id, p: Id)
    requires Delivers(limits, st) && Exec(limits, st, run).Some? && StillOpen(Exec(limits, st, run).value, p)
    ensures RelaysTo(Exec(limits, st, run).value, c, p) == RelaysTo(st, c, p) + AllAsked(limits, st, run, c, p)
    decreases run
  {
    if run == [] {
      assert RelaysTo(st, c, p) + [] == RelaysTo(st, c, p);
    } else {
      var next := Next(limits, st, run[0]);
      StepDelivers(limits, st, run[0]);
      WasOpen(limits, next, run[1..], p);
      StepRelays(limits, st, run[0], c, p);
      RelaysAddUp(limits, next, run[1..], c, p);
      Assoc(RelaysTo(st, c, p), Asked(limits, st, run[0], c, p), AllAsked(limits, next, run[1..], c, p));
    }
  }

  /** Exactly-once relaying in order: for every two peers, what the receiving
      task of one has put on the open queue of the other, with what it is still
      sending, is what the accepted requests of the run asked for, one for one. */
  lemma {:induction false} RelaysInOrder(limits: Limits, run: seq<Step>, c: Id, p: Id)
    requires Exec(limits, START, run).Some?
    requires p in Exec(limits, START, run).value.conns && Exec(limits, START, run).value.conns[p].open
    ensures var st := Exec(limits, START, run).value;
            RelaysFrom(st.conns[p].queue, c, p) + OwedRelays(st, c, p) == AllAsked(limits, START, run, c, p)
  {
    var asked := AllAsked(limits, START, run, c, p);
    StartDelivers(limits, c, p);
    RelaysAddUp(limits, START, run, c, p);
    assert [] + asked == asked;
  }

  lemma {:induction false} StartDelivers(limits: Limits, c: Id, p: Id)
    ensures Delivers(limits, START) && RelaysTo(START, c, p) == []
  {
  }

  lemma {:induction false} ExecOneMore(limits: Limits, st: State, before: seq<Step>, step: Step, after: seq<Step>)
    requires Exec(limits, st, before + [step] + after).Some?
    ensures Exec(limits, st, before).Some? && Enabled(Exec(limits, st, before).value, step)
    ensures Exec(limits, st, before + [step] + after)
            == Exec(limits, Next(limits, Exec(limits, st, before).value, step), after)
    decreases before
  {
    var run := before + [step] + after;
    if before == [] {
      assert run[1..] == after;
    } else {
      assert run[1..] == before[1..] + [step] + after;
      ExecOneMore(limits, Next(limits, st, before[0]), before[1..], step, after);
    }
  }

  /** Who a connection is, and whether it was let in, stays. */
  lemma {:induction false} StaysAdmitted(limits: Limits, st: State, run: seq<Step>, id: Id)
    requires Exec(limits, st, run).Some? && id in st.conns
    ensures var end := Exec(limits, st, run).value;
            && id in end.conns && (end.conns[id].phase.Refused? <==> st.conns[id].phase.Refused?)
            && end.conns[id].info == st.conns[id].info && end.conns[id].snapshot == st.conns[id].snapshot
    decreases run
  {
    if run != [] {
      StepExtends(limits, st, run[0]);
      StaysAdmitted(limits, Next(limits, st, run[0]), run[1..], id);
    }
  }

  /** Whenever a peer connects, it is let in exactly below both limits. If so,
      it is sent one Hello, with its own data and with everyone who was in the
      room at that moment, each with what that peer had published last. */
  lemma {:induction false} HelloIsTheRoom(limits: Limits, before: seq<Step>, id: Id, group: Group, info: Info,
                                          after: seq<Step>)
    requires Exec(limits, START, before + [Connect(id, group, info)] + after).Some?
    ensures Exec(limits, START, before).Some?
    ensures var at := Exec(limits, START, before).value;
            var end := Exec(limits, START, before + [Connect(id, group, info)] + after).value;
            var room := RoomIn(at.rooms, group);
            && id in end.conns
            && (forall i :: i in room ==>
                  InGroup(at, i, group) && room[i] == LatestInfo(at.conns[i].info, at.conns[i].requests))
            && var conn := end.conns[id];
               if |room| < limits.connections && CountIn(at.counts, group) < limits.requests then
                 && !conn.phase.Refused?
                 && Hellos(conn.queue) == (if conn.phase.Joining? then [] else [Hello(ClientInfo(id, info), room)])
               else conn.phase.Refused? && conn.queue == []
  {
    var step := Connect(id, group, info);
    ExecOneMore(limits, START, before, step, after);
    var at, end := Exec(limits, START, before).value, Exec(limits, START, before + [step] + after).value;
    StartDelivers(limits, id, id);
    RunsDeliver(limits, START, before);
    RunsDeliver(limits, START, before + [step] + after);
    StaysAdmitted(limits, Next(limits, at, step), after, id);
    assert Greeted(id, end.conns[id]);
    forall i | i in RoomIn(at.rooms, group)
      ensures InGroup(at, i, group)
      ensures RoomIn(at.rooms, group)[i] == LatestInfo(at.conns[i].info, at.conns[i].requests)
    {
      assert IsCurrent(at, group, i);
    }
  }
}

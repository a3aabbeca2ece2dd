/** From every reachable state the handlers can finish what they are sending,
    and then what every peer was told is exact. */
module SignalingDrain {
  import opened Options
  import opened Seqs
  import opened SignalingRooms
  import opened SignalingSafety
  import opened SignalingMembership
  import opened SignalingDelivery

  /** The handler has nothing left to send, unless an error that ends its task. */
  predicate IsSettled(conn: Conn) {
    && !conn.phase.Joining?
    && (conn.phase.Leaving? ==> conn.phase.todo == {})
    && (conn.post.Some? ==> conn.post.value.todo == {})
  }

  /** How many sends a handler still has to make. */
  function Work(conn: Conn): nat {
    (match conn.phase
     case Joining(todo) => |todo| + 1
     case Leaving(todo) => |todo|
     case _ => 0)
    + if conn.post.Some? then |conn.post.value.todo| else 0
  }

  predicate IsSendOf(step: Step, ids: set<Id>) {
    (step.SendJoin? || step.SendHello? || step.SendLeft? || step.SendPost?) && step.id in ids
  }

  predicate AreSendsOf(run: seq<Step>, ids: set<Id>) {
    forall i :: 0 <= i < |run| ==> IsSendOf(run[i], ids)
  }

  /** Only the handlers of `ids` got on; rooms, counts and open queues are as before. */
  ghost predicate OnlySent(a: State, b: State, ids: set<Id>) {
    && b.rooms == a.rooms && b.counts == a.counts && b.conns.Keys == a.conns.Keys
    && forall c :: c in a.conns ==>
         && b.conns[c].open == a.conns[c].open
         && (c !in ids ==> b.conns[c].phase == a.conns[c].phase && b.conns[c].post == a.conns[c].post)
  }

  lemma {:induction false} TakenOut(todo: set<Id>, to: Id)
    requires to in todo
    ensures |todo - {to}| == |todo| - 1
  {
  }

  lemma {:induction false} SendWorks(limits: Limits, st: State, step: Step, id: Id)
    requires IsSendOf(step, {id}) && Enabled(st, step)
    requires step.SendPost? ==> st.conns[id].post.value.todo != {}
    ensures OnlySent(st, Next(limits, st, step), {id})
    ensures Work(Next(limits, st, step).conns[id]) < Work(st.conns[id])
  {
    var conn := st.conns[id];
    match step
    case SendJoin(_, to) =>
      TakenOut(conn.phase.todo, to);
      Paid(st, id, conn.(phase := Joining(conn.phase.todo - {to})), to, Join(SelfInfo(st, id)));
    case SendLeft(_, to) =>
      TakenOut(conn.phase.todo, to);
      Paid(st, id, conn.(phase := Leaving(conn.phase.todo - {to})), to, Left(id));
    case SendPost(_, to) =>
      var post := conn.post.value;
      TakenOut(post.todo, to);
      Paid(st, id, conn.(post := Some(post.(todo := post.todo - {to}))), to, post.msg);
    case SendHello(_) => Paid(st, id, conn.(phase := Running), id, Hello(SelfInfo(st, id), conn.snapshot));
  }

  lemma {:induction false} Paid(st: State, id: Id, conn: Conn, to: Id, msg: ServerMsg)
    requires id in st.conns && conn.open == st.conns[id].open
    ensures OnlySent(st, st.(conns := Enqueue(st.conns[id := conn], to, msg)), {id})
    ensures Work(Enqueue(st.conns[id := conn], to, msg)[id]) == Work(conn)
  {
  }

  /** An unsettled handler has a send it can make. */
  lemma {:induction false} CanSend(st: State, id: Id) returns (step: Step)
    requires id in st.conns && !IsSettled(st.conns[id])
    ensures Enabled(st, step) && IsSendOf(step, {id})
    ensures step.SendPost? ==> st.conns[id].post.value.todo != {}
  {
    var conn := st.conns[id];
    if conn.post.Some? && conn.post.value.todo != {} {
      var to := Pick(conn.post.value.todo);
      step := SendPost(id, to);
    } else if conn.phase == Joining({}) {
      step := SendHello(id);
    } else {
      var to := Pick(conn.phase.todo);
      step := if conn.phase.Joining? then SendJoin(id, to) else SendLeft(id, to);
    }
  }

  lemma {:induction false} ExecCons(limits: Limits, st: State, step: Step, run: seq<Step>)
    requires Enabled(st, step)
    ensures Exec(limits, st, [step] + run) == Exec(limits, Next(limits, st, step), run)
  {
    assert ([step] + run)[1..] == run;
  }

  lemma {:induction false} ExecAppend(limits: Limits, st: State, a: seq<Step>, b: seq<Step>)
    requires Exec(limits, st, a).Some?
    ensures Exec(limits, st, a + b) == Exec(limits, Exec(limits, st, a).value, b)
    decreases a
  {
    if a == [] {
      assert a + b == b;
    } else {
      assert (a + b)[1..] == a[1..] + b;
      ExecAppend(limits, Next(limits, st, a[0]), a[1..], b);
    }
  }

  lemma {:induction false} SettleOne(limits: Limits, st: State, id: Id) returns (run: seq<Step>)
    requires id in st.conns
    ensures Exec(limits, st, run).Some? && AreSendsOf(run, {id})
    ensures OnlySent(st, Exec(limits, st, run).value, {id}) && IsSettled(Exec(limits, st, run).value.conns[id])
    decreases Work(st.conns[id])
  {
    if IsSettled(st.conns[id]) {
      run := [];
    } else {
      var step := CanSend(st, id);
      SendWorks(limits, st, step, id);
      var rest := SettleOne(limits, Next(limits, st, step), id);
      ExecCons(limits, st, step, rest);
      run := [step] + rest;
    }
  }

  lemma {:induction false} SettleAll(limits: Limits, st: State, ids: set<Id>) returns (run: seq<Step>)
    requires ids <= st.conns.Keys
    ensures Exec(limits, st, run).Some? && AreSendsOf(run, ids)
    ensures OnlySent(st, Exec(limits, st, run).value, ids)
    ensures forall id :: id in ids ==> IsSettled(Exec(limits, st, run).value.conns[id])
    decreases ids
  {
    if ids == {} {
      run := [];
    } else {
      var id := Pick(ids);
      var first := SettleOne(limits, st, id);
      var next := Exec(limits, st, first).value;
      var rest := SettleAll(limits, next, ids - {id});
      ExecAppend(limits, st, first, rest);
      run := first + rest;
    }
  }

  lemma {:induction false} SendsAskNothing(limits: Limits, st: State, run: seq<Step>, ids: set<Id>, c: Id, p: Id)
    requires AreSendsOf(run, ids)
    ensures AllAsked(limits, st, run, c, p) == []
    decreases run
  {
    if run != [] && Enabled(st, run[0]) {
      assert IsSendOf(run[0], ids);
      SendsAskNothing(limits, Next(limits, st, run[0]), run[1..], ids, c, p);
    }
  }

  lemma {:induction false} AskedAppend(limits: Limits, st: State, a: seq<Step>, b: seq<Step>, c: Id, p: Id)
    requires Exec(limits, st, a).Some?
    ensures AllAsked(limits, st, a + b, c, p)
            == AllAsked(limits, st, a, c, p) + AllAsked(limits, Exec(limits, st, a).value, b, c, p)
    decreases a
  {
    if a == [] {
      assert a + b == b;
    } else {
      var next := Next(limits, st, a[0]);
      assert (a + b)[1..] == a[1..] + b;
      AskedAppend(limits, next, a[1..], b, c, p);
      Assoc(Asked(limits, st, a[0], c, p), AllAsked(limits, next, a[1..], c, p),
            AllAsked(limits, Exec(limits, st, a).value, b, c, p));
    }
  }

  /** Every member with an open queue has been told of exactly the others in its
      room: by its Hello and the Joins, less those that left. */
  predicate KnowsRoom(st: State, p: Id) {
    p in st.conns && st.conns[p].open && IsMember(st, p) ==>
      var conn := st.conns[p];
      conn.snapshot.Keys + JoinIds(conn.queue) - LeftIds(conn.queue) == RoomIn(st.rooms, conn.group).Keys - {p}
  }

  /** Every open queue holds exactly the relays the run asked for. */
  predicate HasRelays(limits: Limits, run: seq<Step>, st: State, c: Id, p: Id) {
    p in st.conns && st.conns[p].open ==> RelaysFrom(st.conns[p].queue, c, p) == AllAsked(limits, START, run, c, p)
  }

  lemma {:induction false} SettledKnows(st: State, p: Id)
    requires AllBalanced(st) && forall c :: c in st.conns ==> IsSettled(st.conns[c])
    ensures KnowsRoom(st, p)
  {
    if p in st.conns {
      assert Balanced(st, p);
      forall c: Id ensures c !in PendingJoins(st, p) && c !in PendingLefts(st, p) {
        assert c in st.conns ==> IsSettled(st.conns[c]);
      }
    }
  }

  /** Whatever has happened, the handlers can finish their sends without anyone
      joining, leaving or asking for more; and once they have, every member with
      an open queue has its Hello, knows exactly its room, and has been passed on
      exactly what its peers asked for. */
  lemma {:induction false} EveryRunCanSettle(limits: Limits, run: seq<Step>) returns (rest: seq<Step>)
    requires Exec(limits, START, run).Some?
    ensures Exec(limits, START, run + rest).Some?
    ensures forall i :: 0 <= i < |rest| ==>
              rest[i].SendJoin? || rest[i].SendHello? || rest[i].SendLeft? || rest[i].SendPost?
    ensures var at, end := Exec(limits, START, run).value, Exec(limits, START, run + rest).value;
      && end.rooms == at.rooms && end.conns.Keys == at.conns.Keys
      && (forall p :: KnowsRoom(end, p))
      && (forall p :: p in end.conns && IsMember(end, p) ==> |Hellos(end.conns[p].queue)| == 1)
      && (forall c, p :: HasRelays(limits, run, end, c, p))
  {
    var at := Exec(limits, START, run).value;
    rest := SettleAll(limits, at, at.conns.Keys);
    ExecAppend(limits, START, run, rest);
    var end := Exec(limits, START, run + rest).value;
    StartDelivers(limits, 0, 0);
    RunsDeliver(limits, START, run + rest);
    forall p ensures KnowsRoom(end, p) {
      SettledKnows(end, p);
    }
    forall p | p in end.conns && IsMember(end, p) ensures |Hellos(end.conns[p].queue)| == 1 {
      assert Greeted(p, end.conns[p]) && IsSettled(end.conns[p]);
    }
    forall c, p ensures HasRelays(limits, run, end, c, p) {
      SettledRelays(limits, run, rest, at.conns.Keys, c, p);
    }
  }

  lemma {:induction false} SettledRelays(limits: Limits, run: seq<Step>, rest: seq<Step>, ids: set<Id>, c: Id, p: Id)
    requires Exec(limits, START, run).Some? && Exec(limits, START, run + rest).Some? && AreSendsOf(rest, ids)
    requires var end := Exec(limits, START, run + rest).value;
      forall id :: id in end.conns ==> IsSettled(end.conns[id])
    ensures HasRelays(limits, run, Exec(limits, START, run + rest).value, c, p)
  {
    var end := Exec(limits, START, run + rest).value;
    if p in end.conns && end.conns[p].open {
      RelaysInOrder(limits, run + rest, c, p);
      AskedAppend(limits, START, run, rest, c, p);
      SendsAskNothing(limits, Exec(limits, START, run).value, rest, ids, c, p);
      var asked := AllAsked(limits, START, run, c, p);
      assert asked + [] == asked;
      assert OwedRelays(end, c, p) == [];
      var relays := RelaysFrom(end.conns[p].queue, c, p);
      assert relays + [] == relays;
    }
  }
}

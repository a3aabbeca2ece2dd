/** The signaling server: rooms of peers behind one lock, and handlers that
    send what they have to send after releasing it. */
module SignalingRooms {
  import opened Options

  type Id = int
  type Group = string

  datatype Info = Info(alias: string, version: string, deviceModel: Option<string>, deviceType: Option<string>,
                       token: string)

  datatype ClientInfo = ClientInfo(id: Id, info: Info)

  /** `peers` of a Hello is a list in no particular order. */
  datatype ServerMsg =
    | Hello(client: ClientInfo, peers: map<Id, Info>)
    | Join(peer: ClientInfo)
    | Update(peer: ClientInfo)
    | Left(peerId: Id)
    | Offer(peer: ClientInfo, sessionId: string, sdp: string)
    | Answer(peer: ClientInfo, sessionId: string, sdp: string)
    | Error(code: nat)

  datatype Request =
    | RequestUpdate(info: Info)
    | RequestOffer(target: Id, sessionId: string, sdp: string)
    | RequestAnswer(target: Id, sessionId: string, sdp: string)

  const TOO_MANY_REQUESTS: nat := 429

  /** `MAX_CONNECTIONS_PER_IP` and `MAX_REQUESTS_PER_IP_PER_HOUR`. */
  datatype Limits = Limits(connections: nat, requests: nat)

  type Rooms = map<Group, map<Id, Info>>
  type Counts = map<Group, nat>

  function RoomIn(rooms: Rooms, group: Group): map<Id, Info> {
    if group in rooms then rooms[group] else map[]
  }

  function CountIn(counts: Counts, group: Group): nat {
    if group in counts then counts[group] else 0
  }

  // ----- The sections under the lock, as functions -----

  predicate MayCount(limits: Limits, counts: Counts, group: Group) {
    CountIn(counts, group) < limits.requests
  }

  /** The counter is created by the check, and incremented when it passes. */
  function Counted(limits: Limits, counts: Counts, group: Group): Counts {
    counts[group := CountIn(counts, group) + if MayCount(limits, counts, group) then 1 else 0]
  }

  predicate HasRoom(limits: Limits, rooms: Rooms, group: Group) {
    |RoomIn(rooms, group)| < limits.connections
  }

  predicate Admits(limits: Limits, rooms: Rooms, counts: Counts, group: Group) {
    HasRoom(limits, rooms, group) && MayCount(limits, counts, group)
  }

  /** A refused peer still leaves its room behind, created empty. */
  function Joined(limits: Limits, rooms: Rooms, counts: Counts, group: Group, id: Id, info: Info): Rooms {
    rooms[group := if Admits(limits, rooms, counts, group) then RoomIn(rooms, group)[id := info]
             else RoomIn(rooms, group)]
  }

  function CountedJoin(limits: Limits, rooms: Rooms, counts: Counts, group: Group): Counts {
    if HasRoom(limits, rooms, group) then Counted(limits, counts, group) else counts
  }

  function Departed(rooms: Rooms, group: Group, id: Id): Rooms {
    if group !in rooms then rooms
    else if rooms[group] - {id} == map[] then rooms - {group}
    else rooms[group := rooms[group] - {id}]
  }

  function Renamed(rooms: Rooms, group: Group, id: Id, info: Info): Rooms {
    if id in RoomIn(rooms, group) then rooms[group := rooms[group][id := info]] else rooms
  }

  /** The shared maps and the critical sections on them. */
  class SignalingServer {
    const limits: Limits
    var rooms: Rooms
    var counts: Counts

    constructor (limits: Limits)
      ensures this.limits == limits && rooms == map[] && counts == map[]
    {
      this.limits := limits;
      rooms, counts := map[], map[];
    }

    method ProtectRequestCount(group: Group) returns (ok: bool)
      modifies this`counts
      ensures ok == MayCount(limits, old(counts), group)
      ensures counts == Counted(limits, old(counts), group)
    {
      if group !in counts {
        counts := counts[group := 0];
      }
      if counts[group] >= limits.requests {
        assert counts == Counted(limits, old(counts), group);
        return false;
      }
      counts := counts[group := counts[group] + 1];
      return true;
    }

    /** The joining section: `None` for a refused peer, otherwise everyone who
        was in the room before. */
    method EnterRoom(group: Group, id: Id, info: Info) returns (peers: Option<map<Id, Info>>)
      modifies this
      ensures rooms == Joined(limits, old(rooms), old(counts), group, id, info)
      ensures counts == CountedJoin(limits, old(rooms), old(counts), group)
      ensures peers == if Admits(limits, old(rooms), old(counts), group) then Some(RoomIn(old(rooms), group)) else None
    {
      if group !in rooms {
        rooms := rooms[group := map[]];
      }
      if |rooms[group]| >= limits.connections {
        assert rooms == old(rooms)[group := RoomIn(old(rooms), group)];
        return None;
      }
      var ok := ProtectRequestCount(group);
      if !ok {
        return None;
      }
      peers := Some(rooms[group]);
      rooms := rooms[group := rooms[group][id := info]];
    }

    /** The leaving section: whoever has to be told. */
    method LeaveRoom(group: Group, id: Id) returns (remaining: set<Id>)
      modifies this`rooms
      ensures rooms == Departed(old(rooms), group, id)
      ensures remaining == RoomIn(rooms, group).Keys
      ensures RoomIn(rooms, group) == RoomIn(old(rooms), group) - {id}
      ensures group in rooms ==> rooms[group] != map[]
      ensures forall g :: g != group ==> RoomIn(rooms, g) == RoomIn(old(rooms), g)
    {
      remaining := {};
      if group in rooms {
        rooms := rooms[group := rooms[group] - {id}];
        if rooms[group] == map[] {
          rooms := rooms - {group};
        } else {
          remaining := rooms[group].Keys;
        }
      }
      assert rooms == Departed(old(rooms), group, id);
    }

    method UpdateInfo(group: Group, id: Id, info: Info) returns (others: set<Id>)
      modifies this`rooms
      ensures rooms == Renamed(old(rooms), group, id, info)
      ensures others == if id in RoomIn(old(rooms), group) then RoomIn(old(rooms), group).Keys - {id} else {}
    {
      others := {};
      if group in rooms && id in rooms[group] {
        rooms := rooms[group := rooms[group][id := info]];
        others := set k | k in rooms[group] && k != id;
      }
    }

    /** Where an offer or answer goes: only to a peer of the same room. */
    method FindTarget(group: Group, target: Id) returns (found: bool)
      ensures found == (target in RoomIn(rooms, group))
    {
      found := group in rooms && target in rooms[group];
    }
  }

  // ----- Handlers, interleaved -----

  /** Where the handler of a connection is. `todo` are the peers it still has
      to send to, in an order of its choice. */
  datatype Phase =
    | Joining(todo: set<Id>)
    | Running
    | Leaving(todo: set<Id>)
    | Refused

  /** What the receiving task of a connection is sending. */
  datatype Post = Post(todo: set<Id>, msg: ServerMsg)

  /** `queue` holds every message ever put on the connection's queue,
      delivered or not; `open` ends when the task draining it does. */
  datatype Conn = Conn(
    group: Group, info: Info, snapshot: map<Id, Info>, phase: Phase, post: Option<Post>,
    requests: seq<Request>, open: bool, queue: seq<ServerMsg>)

  datatype State = State(rooms: Rooms, counts: Counts, conns: map<Id, Conn>)

  const START: State := State(map[], map[], map[])

  datatype Step =
    | Connect(id: Id, group: Group, info: Info)
    | SendJoin(id: Id, to: Id)
    | SendHello(id: Id)
    | Receive(id: Id, request: Request)
    | SendPost(id: Id, to: Id)
    | CloseQueue(id: Id)
    | Leave(id: Id)
    | SendLeft(id: Id, to: Id)
    | ResetCounts

  function Enqueue(conns: map<Id, Conn>, to: Id, msg: ServerMsg): map<Id, Conn> {
    if to in conns && conns[to].open then conns[to := conns[to].(queue := conns[to].queue + [msg])] else conns
  }

  function SelfInfo(st: State, id: Id): ClientInfo
    requires id in st.conns
  {
    ClientInfo(id, st.conns[id].info)
  }

  /** A receiving task runs once the Hello is queued; being aborted does not
      stop it at once, so it may outlive the leaving section. */
  predicate HasTask(conn: Conn) {
    conn.phase.Running? || conn.phase.Leaving?
  }

  /** A post without recipients left is finished; after an error the task ends. */
  predicate CanPost(post: Post, to: Id) {
    if post.todo == {} then !post.msg.Error? else to in post.todo
  }

  predicate Enabled(st: State, step: Step) {
    match step
    case Connect(id, _, _) => id !in st.conns
    case SendJoin(id, to) => id in st.conns && st.conns[id].phase.Joining? && to in st.conns[id].phase.todo
    case SendHello(id) => id in st.conns && st.conns[id].phase == Joining({})
    case Receive(id, _) => id in st.conns && HasTask(st.conns[id]) && st.conns[id].post.None?
    case SendPost(id, to) =>
      id in st.conns && st.conns[id].post.Some? && CanPost(st.conns[id].post.value, to)
    case CloseQueue(id) => id in st.conns && HasTask(st.conns[id])
    case Leave(id) => id in st.conns && st.conns[id].phase.Running?
    case SendLeft(id, to) => id in st.conns && st.conns[id].phase.Leaving? && to in st.conns[id].phase.todo
    case ResetCounts => true
  }

  /** What a request makes the receiving task send, and to whom. */
  function PostOf(st: State, id: Id, request: Request): Post
    requires id in st.conns
  {
    var room := RoomIn(st.rooms, st.conns[id].group);
    match request
    case RequestUpdate(info) => Post(if id in room then room.Keys - {id} else {}, Update(ClientInfo(id, info)))
    case RequestOffer(target, sessionId, sdp) =>
      Post(if target in room then {target} else {}, Offer(SelfInfo(st, id), sessionId, sdp))
    case RequestAnswer(target, sessionId, sdp) =>
      Post(if target in room then {target} else {}, Answer(SelfInfo(st, id), sessionId, sdp))
  }

  function Next(limits: Limits, st: State, step: Step): State
    requires Enabled(st, step)
  {
    match step
    case Connect(id, group, info) =>
      var ok := Admits(limits, st.rooms, st.counts, group);
      var room := RoomIn(st.rooms, group);
      State(
        Joined(limits, st.rooms, st.counts, group, id, info),
        CountedJoin(limits, st.rooms, st.counts, group),
        st.conns[id := Conn(group, info, if ok then room else map[],
                 if ok then Joining(room.Keys) else Refused, None, [], ok, [])])
    case SendJoin(id, to) =>
      var conn := st.conns[id];
      st.(conns := Enqueue(st.conns[id := conn.(phase := Joining(conn.phase.todo - {to}))], to, Join(SelfInfo(st, id))))
    case SendHello(id) =>
      var conn := st.conns[id];
      st.(conns := Enqueue(st.conns[id := conn.(phase := Running)], id, Hello(SelfInfo(st, id), conn.snapshot)))
    case Receive(id, request) =>
      var conn := st.conns[id];
      var ok := MayCount(limits, st.counts, conn.group);
      var post := if ok then PostOf(st, id, request) else Post({id}, Error(TOO_MANY_REQUESTS));
      State(
        if ok && request.RequestUpdate? then Renamed(st.rooms, conn.group, id, request.info) else st.rooms,
        Counted(limits, st.counts, conn.group),
        st.conns[id := conn.(post := Some(post), requests := if ok then conn.requests + [request] else conn.requests)])
    case SendPost(id, to) =>
      var conn := st.conns[id];
      var post := conn.post.value;
      if post.todo == {} then st.(conns := st.conns[id := conn.(post := None)])
      else st.(conns := Enqueue(st.conns[id := conn.(post := Some(post.(todo := post.todo - {to})))], to, post.msg))
    case CloseQueue(id) => st.(conns := st.conns[id := st.conns[id].(open := false)])
    case Leave(id) =>
      var conn := st.conns[id];
      var rooms := Departed(st.rooms, conn.group, id);
      st.(rooms := rooms, conns := st.conns[id := conn.(phase := Leaving(RoomIn(rooms, conn.group).Keys))])
    case SendLeft(id, to) =>
      var conn := st.conns[id];
      st.(conns := Enqueue(st.conns[id := conn.(phase := Leaving(conn.phase.todo - {to}))], to, Left(id)))
    case ResetCounts => st.(counts := map[])
  }
}

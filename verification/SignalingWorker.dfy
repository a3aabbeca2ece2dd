/** The single-threaded signaling server: its event handlers, and the sessions
    and sent messages they change. */
module SignalingWorker {
  import opened Options

  type Socket = int
  type Id = string

  datatype ClientInfo = ClientInfo(id: Id, alias: string, version: string, deviceModel: Option<string>,
                                   deviceType: Option<string>, token: string)

  /** What a client registers with or updates; every part may be missing. */
  datatype ClientData = ClientData(alias: Option<string>, version: Option<string>, deviceModel: Option<string>,
                                   deviceType: Option<string>, token: Option<string>)

  datatype ServerMsg =
    | Hello(client: ClientInfo, peers: seq<ClientInfo>)
    | Join(peer: ClientInfo)
    | Update(peer: ClientInfo)
    | Left(peerId: Id)
    | Offer(peer: ClientInfo, sessionId: string, sdp: string)
    | Answer(peer: ClientInfo, sessionId: string, sdp: string)

  datatype ClientMsg =
    | UpdateInfo(info: Option<ClientData>)
    | MakeOffer(target: Id, sessionId: string, sdp: string)
    | MakeAnswer(target: Id, sessionId: string, sdp: string)

  datatype Session = Session(socket: Socket, info: ClientInfo)

  /** JavaScript's `a || b`: a missing or empty string gives way. */
  function Or(a: Option<string>, b: Option<string>): Option<string> {
    if a == None || a == Some("") then b else a
  }

  function OrElse(a: Option<string>, b: string): string {
    if a == None || a == Some("") then b else a.value
  }

  function Registered(id: Id, data: ClientData): ClientInfo {
    ClientInfo(id, OrElse(data.alias, "Unknown Device"), OrElse(data.version, "2.2"), Or(data.deviceModel, None),
               Or(data.deviceType, None), OrElse(data.token, ""))
  }

  /** The version stays as registered. */
  function Merged(info: ClientInfo, data: ClientData): ClientInfo {
    ClientInfo(info.id, OrElse(data.alias, info.alias), info.version, Or(data.deviceModel, info.deviceModel),
               Or(data.deviceType, info.deviceType), OrElse(data.token, info.token))
  }

  // ---- the state and its changes ----

  type Inboxes = map<Socket, seq<ServerMsg>>

  /** `sessions` is in insertion order, as a JavaScript map is; `inboxes` is
      what has been sent to each socket. */
  datatype State = State(sessions: seq<Session>, inboxes: Inboxes)

  function Inbox(inboxes: Inboxes, socket: Socket): seq<ServerMsg> {
    if socket in inboxes then inboxes[socket] else []
  }

  function Sent(inboxes: Inboxes, socket: Socket, msg: ServerMsg): Inboxes {
    inboxes[socket := Inbox(inboxes, socket) + [msg]]
  }

  function Broadcasted(inboxes: Inboxes, sessions: seq<Session>, exclude: Option<Socket>, msg: ServerMsg): Inboxes {
    if sessions == [] then inboxes
    else
      var before := Broadcasted(inboxes, sessions[..|sessions| - 1], exclude, msg);
      var socket := sessions[|sessions| - 1].socket;
      if exclude == Some(socket) then before else Sent(before, socket, msg)
  }

  /** The position of a socket's session, or the number of sessions. */
  function Position(sessions: seq<Session>, socket: Socket): (i: nat)
    ensures i <= |sessions| && (i < |sessions| ==> sessions[i].socket == socket)
    ensures i == |sessions| ==> forall k :: 0 <= k < |sessions| ==> sessions[k].socket != socket
  {
    if sessions == [] || sessions[0].socket == socket then 0 else 1 + Position(sessions[1..], socket)
  }

  function PositionOfId(sessions: seq<Session>, id: Id): (i: nat)
    ensures i <= |sessions| && (i < |sessions| ==> sessions[i].info.id == id)
    ensures i == |sessions| ==> forall k :: 0 <= k < |sessions| ==> sessions[k].info.id != id
  {
    if sessions == [] || sessions[0].info.id == id then 0 else 1 + PositionOfId(sessions[1..], id)
  }

  function Removed(sessions: seq<Session>, i: nat): seq<Session>
    requires i < |sessions|
  {
    sessions[..i] + sessions[i + 1..]
  }

  function Infos(sessions: seq<Session>): seq<ClientInfo> {
    if sessions == [] then [] else Infos(sessions[..|sessions| - 1]) + [sessions[|sessions| - 1].info]
  }

  datatype Event =
    | Connect(socket: Socket, id: Id, data: ClientData)
    | Receive(socket: Socket, msg: ClientMsg)
    | Close(socket: Socket)

  function Connected(st: State, socket: Socket, id: Id, data: ClientData): State {
    var info := Registered(id, data);
    var greeted := Sent(st.inboxes, socket, Hello(info, Infos(st.sessions)));
    State(st.sessions + [Session(socket, info)], Broadcasted(greeted, st.sessions, None, Join(info)))
  }

  function Updated(st: State, i: nat, data: ClientData): State
    requires i < |st.sessions|
  {
    var socket, info := st.sessions[i].socket, Merged(st.sessions[i].info, data);
    var sessions := st.sessions[i := Session(socket, info)];
    State(sessions, Broadcasted(st.inboxes, sessions, Some(socket), Update(info)))
  }

  function Relayed(st: State, target: Id, msg: ServerMsg): State {
    var k := PositionOfId(st.sessions, target);
    if k == |st.sessions| then st else State(st.sessions, Sent(st.inboxes, st.sessions[k].socket, msg))
  }

  function Handled(st: State, socket: Socket, msg: ClientMsg): State {
    var i := Position(st.sessions, socket);
    if i == |st.sessions| then st
    else
      match msg
      case UpdateInfo(None) => st
      case UpdateInfo(Some(data)) => Updated(st, i, data)
      case MakeOffer(target, sessionId, sdp) => Relayed(st, target, Offer(st.sessions[i].info, sessionId, sdp))
      case MakeAnswer(target, sessionId, sdp) => Relayed(st, target, Answer(st.sessions[i].info, sessionId, sdp))
  }

  /** The handler of both `close` and `error`. */
  function Closed(st: State, socket: Socket): State {
    var i := Position(st.sessions, socket);
    if i == |st.sessions| then st
    else
      var sessions := Removed(st.sessions, i);
      State(sessions, Broadcasted(st.inboxes, sessions, None, Left(st.sessions[i].info.id)))
  }

  function Next(st: State, event: Event): State {
    match event
    case Connect(socket, id, data) => Connected(st, socket, id, data)
    case Receive(socket, msg) => Handled(st, socket, msg)
    case Close(socket) => Closed(st, socket)
  }

  // ---- the handlers ----

  class Worker {
    var sessions: seq<Session>
    var inboxes: Inboxes

    function Now(): State
      reads this
    {
      State(sessions, inboxes)
    }

    constructor ()
      ensures Now() == State([], map[])
    {
      sessions, inboxes := [], map[];
    }

    method Send(socket: Socket, msg: ServerMsg)
      modifies this`inboxes
      ensures inboxes == Sent(old(inboxes), socket, msg)
    {
      inboxes := inboxes[socket := Inbox(inboxes, socket) + [msg]];
    }

    method Broadcast(msg: ServerMsg)
      modifies this`inboxes
      ensures inboxes == Broadcasted(old(inboxes), sessions, None, msg)
    {
      for i := 0 to |sessions|
        invariant inboxes == Broadcasted(old(inboxes), sessions[..i], None, msg)
      {
        assert sessions[..i + 1][..i] == sessions[..i];
        Send(sessions[i].socket, msg);
      }
      assert sessions[..|sessions|] == sessions;
    }

    method BroadcastExcept(exclude: Socket, msg: ServerMsg)
      modifies this`inboxes
      ensures inboxes == Broadcasted(old(inboxes), sessions, Some(exclude), msg)
    {
      for i := 0 to |sessions|
        invariant inboxes == Broadcasted(old(inboxes), sessions[..i], Some(exclude), msg)
      {
        assert sessions[..i + 1][..i] == sessions[..i];
        if sessions[i].socket != exclude {
          Send(sessions[i].socket, msg);
        }
      }
      assert sessions[..|sessions|] == sessions;
    }

    method FindSocketById(id: Id) returns (socket: Option<Socket>)
      ensures var k := PositionOfId(sessions, id);
        socket == if k == |sessions| then None else Some(sessions[k].socket)
    {
      for i := 0 to |sessions|
        invariant PositionOfId(sessions, id) == i + PositionOfId(sessions[i..], id)
      {
        assert sessions[i..][0] == sessions[i] && sessions[i..][1..] == sessions[i + 1..];
        if sessions[i].info.id == id {
          return Some(sessions[i].socket);
        }
      }
      socket := None;
    }

    method OnConnect(socket: Socket, id: Id, data: ClientData)
      modifies this
      ensures Now() == Connected(old(Now()), socket, id, data)
    {
      var info := Registered(id, data);
      Send(socket, Hello(info, Infos(sessions)));
      Broadcast(Join(info));
      sessions := sessions + [Session(socket, info)];
    }

    method OnMessage(socket: Socket, msg: ClientMsg)
      modifies this
      ensures Now() == Handled(old(Now()), socket, msg)
    {
      var i := Position(sessions, socket);
      if i == |sessions| {
        return;
      }
      match msg {
        case UpdateInfo(None) =>
        case UpdateInfo(Some(data)) =>
          sessions := sessions[i := Session(socket, Merged(sessions[i].info, data))];
          BroadcastExcept(socket, Update(sessions[i].info));
        case MakeOffer(target, sessionId, sdp) =>
          var to := FindSocketById(target);
          if to.Some? {
            Send(to.value, Offer(sessions[i].info, sessionId, sdp));
          }
        case MakeAnswer(target, sessionId, sdp) =>
          var to := FindSocketById(target);
          if to.Some? {
            Send(to.value, Answer(sessions[i].info, sessionId, sdp));
          }
      }
    }

    method OnClose(socket: Socket)
      modifies this
      ensures Now() == Closed(old(Now()), socket)
    {
      var i := Position(sessions, socket);
      if i < |sessions| {
        var exiting := sessions[i].info;
        sessions := sessions[..i] + sessions[i + 1..];
        Broadcast(Left(exiting.id));
      }
    }
  }
}

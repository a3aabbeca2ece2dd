/** What a client of the single-threaded signaling server knows about the others. */
module WorkerViews {
  import opened Options
  import opened SignalingWorker

  type View = map<Id, ClientInfo>

  /** The view a client has after reading its messages in order. */
  function Seen(inbox: seq<ServerMsg>): View {
    if inbox == [] then map[]
    else Told(Seen(inbox[..|inbox| - 1]), inbox[|inbox| - 1])
  }

  function Told(view: View, msg: ServerMsg): View {
    match msg
    case Hello(_, peers) => ById(peers)
    case Join(peer) => view[peer.id := peer]
    case Update(peer) => view[peer.id := peer]
    case Left(peerId) => view - {peerId}
    case Offer(_, _, _) => view
    case Answer(_, _, _) => view
  }

  function ById(infos: seq<ClientInfo>): View {
    if infos == [] then map[]
    else ById(infos[..|infos| - 1])[infos[|infos| - 1].id := infos[|infos| - 1]]
  }

  /** All sessions but the socket's own. */
  function Others(sessions: seq<Session>, socket: Socket): View {
    if sessions == [] then map[]
    else
      var others, last := Others(sessions[..|sessions| - 1], socket), sessions[|sessions| - 1];
      if last.socket == socket then others else others[last.info.id := last.info]
  }

  predicate Distinct(sessions: seq<Session>) {
    forall i, j :: 0 <= i < j < |sessions| ==>
      sessions[i].socket != sessions[j].socket && sessions[i].info.id != sessions[j].info.id
  }

  predicate HasSocket(sessions: seq<Session>, socket: Socket) {
    exists i :: 0 <= i < |sessions| && sessions[i].socket == socket
  }

  predicate HasId(sessions: seq<Session>, id: Id) {
    exists i :: 0 <= i < |sessions| && sessions[i].info.id == id
  }

  /** A new connection brings a socket and an id that no session has. */
  predicate Allowed(st: State, event: Event) {
    event.Connect? ==> !HasSocket(st.sessions, event.socket) && !HasId(st.sessions, event.id)
  }

  predicate SeesOthers(st: State, socket: Socket) {
    Seen(Inbox(st.inboxes, socket)) == Others(st.sessions, socket)
  }

  ghost predicate InOrderView(st: State) {
    && Distinct(st.sessions)
    && forall socket :: HasSocket(st.sessions, socket) ==> SeesOthers(st, socket)
  }

  lemma {:induction false} SeenAfter(inbox: seq<ServerMsg>, msg: ServerMsg)
    ensures Seen(inbox + [msg]) == Told(Seen(inbox), msg)
  {
    assert (inbox + [msg])[..|inbox|] == inbox;
  }

  lemma {:induction false} DistinctInit(sessions: seq<Session>)
    requires Distinct(sessions) && sessions != []
    ensures Distinct(sessions[..|sessions| - 1])
    ensures !HasSocket(sessions[..|sessions| - 1], sessions[|sessions| - 1].socket)
    ensures !HasId(sessions[..|sessions| - 1], sessions[|sessions| - 1].info.id)
  {
  }

  /** A broadcast adds one message to every session but the excluded one. */
  lemma {:induction false} BroadcastAt(inboxes: Inboxes, sessions: seq<Session>, exclude: Option<Socket>,
                                       msg: ServerMsg, socket: Socket)
    requires Distinct(sessions)
    ensures Inbox(Broadcasted(inboxes, sessions, exclude, msg), socket)
         == Inbox(inboxes, socket) + if HasSocket(sessions, socket) && exclude != Some(socket) then [msg] else []
  {
    if sessions != [] {
      var init, last := sessions[..|sessions| - 1], sessions[|sessions| - 1];
      DistinctInit(sessions);
      BroadcastAt(inboxes, init, exclude, msg, socket);
      HasSocketSnoc(init, last, socket);
      assert sessions == init + [last];
    }
  }

  lemma {:induction false} HasSocketSnoc(sessions: seq<Session>, last: Session, socket: Socket)
    ensures HasSocket(sessions + [last], socket) <==> HasSocket(sessions, socket) || last.socket == socket
  {
    var all := sessions + [last];
    assert all[|sessions|] == last;
    if HasSocket(sessions, socket) {
      var i :| 0 <= i < |sessions| && sessions[i].socket == socket;
      assert all[i].socket == socket;
    }
  }

  // ---- connecting ----

  lemma {:induction false} OthersOfAbsent(sessions: seq<Session>, socket: Socket)
    requires !HasSocket(sessions, socket)
    ensures Others(sessions, socket) == ById(Infos(sessions))
  {
    if sessions != [] {
      var init, last := sessions[..|sessions| - 1], sessions[|sessions| - 1];
      assert sessions == init + [last];
      HasSocketSnoc(init, last, socket);
      OthersOfAbsent(init, socket);
      assert Infos(sessions)[..|Infos(sessions)| - 1] == Infos(init);
    }
  }

  lemma {:induction false} OthersSnoc(sessions: seq<Session>, last: Session, socket: Socket)
    ensures Others(sessions + [last], socket)
         == if last.socket == socket then Others(sessions, socket)
            else Others(sessions, socket)[last.info.id := last.info]
  {
    assert (sessions + [last])[..|sessions|] == sessions;
  }

  lemma {:induction false} DistinctSnoc(sessions: seq<Session>, last: Session)
    requires Distinct(sessions) && !HasSocket(sessions, last.socket) && !HasId(sessions, last.info.id)
    ensures Distinct(sessions + [last])
  {
  }

  lemma {:induction false} ConnectKeepsViews(st: State, socket: Socket, id: Id, data: ClientData)
    requires InOrderView(st) && Allowed(st, Connect(socket, id, data))
    ensures InOrderView(Connected(st, socket, id, data))
  {
    var info := Registered(id, data);
    var session := Session(socket, info);
    var next := Connected(st, socket, id, data);
    var hello := Hello(info, Infos(st.sessions));
    var greeted := Sent(st.inboxes, socket, hello);
    DistinctSnoc(st.sessions, session);
    forall other | HasSocket(next.sessions, other)
      ensures SeesOthers(next, other)
    {
      HasSocketSnoc(st.sessions, session, other);
      OthersSnoc(st.sessions, session, other);
      BroadcastAt(greeted, st.sessions, None, Join(info), other);
      if other == socket {
        SeenAfter(Inbox(st.inboxes, socket), hello);
        OthersOfAbsent(st.sessions, socket);
        assert Inbox(next.inboxes, socket) == Inbox(st.inboxes, socket) + [hello];
      } else {
        SeenAfter(Inbox(st.inboxes, other), Join(info));
      }
    }
  }

  // ---- updating ----

  lemma {:induction false} OthersUpdated(sessions: seq<Session>, i: nat, info: ClientInfo, socket: Socket)
    requires Distinct(sessions) && i < |sessions| && info.id == sessions[i].info.id
    ensures var after := sessions[i := Session(sessions[i].socket, info)];
      Others(after, socket)
      == if sessions[i].socket == socket then Others(sessions, socket) else Others(sessions, socket)[info.id := info]
  {
    var n := |sessions| - 1;
    var after := sessions[i := Session(sessions[i].socket, info)];
    if i < n {
      DistinctInit(sessions);
      OthersUpdated(sessions[..n], i, info, socket);
      assert after[..n] == sessions[..n][i := Session(sessions[i].socket, info)];
    } else {
      assert after[..n] == sessions[..n];
    }
  }

  lemma {:induction false} SameSockets(sessions: seq<Session>, i: nat, info: ClientInfo, socket: Socket)
    requires i < |sessions|
    ensures HasSocket(sessions[i := Session(sessions[i].socket, info)], socket) <==> HasSocket(sessions, socket)
  {
    var after := sessions[i := Session(sessions[i].socket, info)];
    assert forall k :: 0 <= k < |sessions| ==> after[k].socket == sessions[k].socket;
  }

  lemma {:induction false} UpdateIsSeen(st: State, i: nat, data: ClientData, other: Socket)
    requires Distinct(st.sessions) && i < |st.sessions| && HasSocket(st.sessions, other) && SeesOthers(st, other)
    ensures SeesOthers(Updated(st, i, data), other)
  {
    var from, info := st.sessions[i].socket, Merged(st.sessions[i].info, data);
    var sessions := st.sessions[i := Session(from, info)];
    SameSockets(st.sessions, i, info, other);
    BroadcastAt(st.inboxes, sessions, Some(from), Update(info), other);
    OthersUpdated(st.sessions, i, info, other);
    SeenAfter(Inbox(st.inboxes, other), Update(info));
    if from == other {
      assert Inbox(st.inboxes, other) + [] == Inbox(st.inboxes, other);
    }
  }

  lemma {:induction false} UpdateKeepsViews(st: State, i: nat, data: ClientData)
    requires InOrderView(st) && i < |st.sessions|
    ensures InOrderView(Updated(st, i, data))
  {
    forall other | HasSocket(Updated(st, i, data).sessions, other) ensures SeesOthers(Updated(st, i, data), other) {
      SameSockets(st.sessions, i, Merged(st.sessions[i].info, data), other);
      UpdateIsSeen(st, i, data, other);
    }
  }

  // ---- relaying ----

  lemma {:induction false} RelayIsSeen(st: State, target: Id, msg: ServerMsg, other: Socket)
    requires SeesOthers(st, other) && (msg.Offer? || msg.Answer?)
    ensures SeesOthers(Relayed(st, target, msg), other)
  {
    SeenAfter(Inbox(st.inboxes, other), msg);
  }

  lemma {:induction false} RelayKeepsViews(st: State, target: Id, msg: ServerMsg)
    requires InOrderView(st) && (msg.Offer? || msg.Answer?)
    ensures InOrderView(Relayed(st, target, msg))
  {
    forall other | HasSocket(Relayed(st, target, msg).sessions, other)
      ensures SeesOthers(Relayed(st, target, msg), other) {
      RelayIsSeen(st, target, msg, other);
    }
  }

  // ---- closing ----

  lemma {:induction false} RemovedInit(sessions: seq<Session>, i: nat)
    requires i < |sessions| - 1
    ensures Removed(sessions, i) == Removed(sessions[..|sessions| - 1], i) + [sessions[|sessions| - 1]]
  {
  }

  lemma {:induction false} UpdateThenRemove(view: View, info: ClientInfo, id: Id)
    requires info.id != id
    ensures view[info.id := info] - {id} == (view - {id})[info.id := info]
  {
  }

  lemma {:induction false} OthersRemoved(sessions: seq<Session>, i: nat, socket: Socket)
    requires Distinct(sessions) && i < |sessions| && sessions[i].socket != socket
    ensures Others(Removed(sessions, i), socket) == Others(sessions, socket) - {sessions[i].info.id}
  {
    var n := |sessions| - 1;
    var init, last := sessions[..n], sessions[n];
    DistinctInit(sessions);
    if i < n {
      OthersRemoved(init, i, socket);
      RemovedInit(sessions, i);
      OthersSnoc(Removed(init, i), last, socket);
      UpdateThenRemove(Others(init, socket), last.info, sessions[i].info.id);
    } else {
      OthersLacks(init, socket, last.info.id);
      assert Removed(sessions, i) == init;
    }
  }

  lemma {:induction false} OthersLacks(sessions: seq<Session>, socket: Socket, id: Id)
    requires !HasId(sessions, id)
    ensures id !in Others(sessions, socket)
  {
    if sessions != [] {
      assert sessions[|sessions| - 1].info.id != id;
      assert !HasId(sessions[..|sessions| - 1], id);
      OthersLacks(sessions[..|sessions| - 1], socket, id);
    }
  }

  lemma {:induction false} RemovedStaysDistinct(sessions: seq<Session>, i: nat)
    requires Distinct(sessions) && i < |sessions|
    ensures Distinct(Removed(sessions, i))
    ensures !HasSocket(Removed(sessions, i), sessions[i].socket)
  {
    var after := Removed(sessions, i);
    assert forall k :: 0 <= k < |after| ==> after[k] == sessions[if k < i then k else k + 1];
  }

  lemma {:induction false} RemovedHas(sessions: seq<Session>, i: nat, socket: Socket)
    requires Distinct(sessions) && i < |sessions|
    ensures HasSocket(Removed(sessions, i), socket) <==> HasSocket(sessions, socket) && socket != sessions[i].socket
  {
    var after := Removed(sessions, i);
    RemovedStaysDistinct(sessions, i);
    if HasSocket(after, socket) {
      var k :| 0 <= k < |after| && after[k].socket == socket;
      assert sessions[if k < i then k else k + 1] == after[k];
    }
    if HasSocket(sessions, socket) && socket != sessions[i].socket {
      var k :| 0 <= k < |sessions| && sessions[k].socket == socket;
      assert after[if k < i then k else k - 1] == sessions[k];
    }
  }

  lemma {:induction false} CloseIsSeen(st: State, i: nat, other: Socket)
    requires Distinct(st.sessions) && i < |st.sessions| && HasSocket(Removed(st.sessions, i), other)
    requires SeesOthers(st, other)
    ensures var id := st.sessions[i].info.id;
      SeesOthers(State(Removed(st.sessions, i),
                 Broadcasted(st.inboxes, Removed(st.sessions, i), None, Left(id))), other)
  {
    var id := st.sessions[i].info.id;
    RemovedStaysDistinct(st.sessions, i);
    RemovedHas(st.sessions, i, other);
    BroadcastAt(st.inboxes, Removed(st.sessions, i), None, Left(id), other);
    OthersRemoved(st.sessions, i, other);
    SeenAfter(Inbox(st.inboxes, other), Left(id));
  }

  lemma {:induction false} CloseKeepsViews(st: State, socket: Socket)
    requires InOrderView(st)
    ensures InOrderView(Closed(st, socket))
  {
    var i := Position(st.sessions, socket);
    if i < |st.sessions| {
      RemovedStaysDistinct(st.sessions, i);
      forall other | HasSocket(Removed(st.sessions, i), other) ensures SeesOthers(Closed(st, socket), other) {
        RemovedHas(st.sessions, i, other);
        CloseIsSeen(st, i, other);
      }
    }
  }

  // ---- whole runs ----

  lemma {:induction false} StepKeepsViews(st: State, event: Event)
    requires InOrderView(st) && Allowed(st, event)
    ensures InOrderView(Next(st, event))
  {
    match event
    case Connect(socket, id, data) => ConnectKeepsViews(st, socket, id, data);
    case Close(socket) => CloseKeepsViews(st, socket);
    case Receive(socket, msg) =>
      var i := Position(st.sessions, socket);
      if i < |st.sessions| {
        match msg
        case UpdateInfo(None) =>
        case UpdateInfo(Some(data)) => UpdateKeepsViews(st, i, data);
        case MakeOffer(target, sessionId, sdp) =>
          RelayKeepsViews(st, target, Offer(st.sessions[i].info, sessionId, sdp));
        case MakeAnswer(target, sessionId, sdp) =>
          RelayKeepsViews(st, target, Answer(st.sessions[i].info, sessionId, sdp));
      }
  }

  const EMPTY: State := State([], map[])

  /** The state after a run from the start. */
  function After(events: seq<Event>): State {
    if events == [] then EMPTY else Next(After(events[..|events| - 1]), events[|events| - 1])
  }

  predicate IsRun(events: seq<Event>) {
    events == [] || (IsRun(events[..|events| - 1]) && Allowed(After(events[..|events| - 1]), events[|events| - 1]))
  }

  /** At every point of every run each connected client, reading its messages
      in order, knows exactly the other sessions and their latest data. */
  lemma {:induction false} ViewsAreExact(events: seq<Event>)
    requires IsRun(events)
    ensures InOrderView(After(events))
  {
    if events != [] {
      ViewsAreExact(events[..|events| - 1]);
      StepKeepsViews(After(events[..|events| - 1]), events[|events| - 1]);
    }
  }

  // ---- the data of a client ----

  const DEFAULTS: ClientInfo := ClientInfo("", "Unknown Device", "2.2", None, None, "")
  const NOTHING: ClientData := ClientData(None, None, None, None, None)

  function Full(alias: string, deviceModel: string, deviceType: string, token: string): ClientData {
    ClientData(Some(alias), None, Some(deviceModel), Some(deviceType), Some(token))
  }

  /** Registering is updating the defaults; an update without content changes
      nothing, and an update with all parts leaves exactly them. */
  lemma {:induction false} UpdatesReplaceWhatTheyCarry(info: ClientInfo, data: ClientData, alias: string,
                                                       model: string, kind: string, token: string)
    requires alias != "" && model != "" && kind != "" && token != ""
    ensures Registered(info.id, data)
         == Merged(DEFAULTS.(id := info.id), data).(version := OrElse(data.version, "2.2"))
    ensures data.version.Some? && data.version.value != "" ==> Registered(info.id, data).version == data.version.value
    ensures Merged(info, NOTHING) == Merged(info, Full("", "", "", "")) == info
    ensures Merged(info, Full(alias, model, kind, token))
         == ClientInfo(info.id, alias, info.version, Some(model), Some(kind), token)
    ensures Merged(Merged(info, data), data) == Merged(info, data)
  {
  }

  // ---- one LEFT per connection ----

  function Lefts(inbox: seq<ServerMsg>, id: Id): nat {
    if inbox == [] then 0
    else Lefts(inbox[..|inbox| - 1], id) + if inbox[|inbox| - 1] == Left(id) then 1 else 0
  }

  function Connections(events: seq<Event>, id: Id): nat {
    if events == [] then 0
    else
      var last := events[|events| - 1];
      Connections(events[..|events| - 1], id) + if last.Connect? && last.id == id then 1 else 0
  }

  /** The LEFT messages a socket got about an id, and the one that may still come. */
  function Departures(st: State, socket: Socket, id: Id): nat {
    Lefts(Inbox(st.inboxes, socket), id) + if HasId(st.sessions, id) then 1 else 0
  }

  lemma {:induction false} LeftsAfter(inbox: seq<ServerMsg>, msg: ServerMsg, id: Id)
    ensures Lefts(inbox + [msg], id) == Lefts(inbox, id) + if msg == Left(id) then 1 else 0
    ensures inbox + [] == inbox
  {
    assert (inbox + [msg])[..|inbox|] == inbox;
  }

  lemma {:induction false} HasIdSnoc(sessions: seq<Session>, last: Session, id: Id)
    ensures HasId(sessions + [last], id) <==> HasId(sessions, id) || last.info.id == id
  {
    var all := sessions + [last];
    assert all[|sessions|] == last;
    if HasId(sessions, id) {
      var i :| 0 <= i < |sessions| && sessions[i].info.id == id;
      assert all[i].info.id == id;
    }
  }

  lemma {:induction false} RemovedLosesId(sessions: seq<Session>, i: nat, id: Id)
    requires Distinct(sessions) && i < |sessions|
    ensures HasId(Removed(sessions, i), id) ==> HasId(sessions, id) && id != sessions[i].info.id
  {
    var after := Removed(sessions, i);
    if HasId(after, id) {
      var k :| 0 <= k < |after| && after[k].info.id == id;
      assert sessions[if k < i then k else k + 1] == after[k];
    }
  }

  lemma {:induction false} ConnectDepartures(st: State, socket: Socket, id: Id, data: ClientData, other: Socket,
                                             about: Id)
    requires Distinct(st.sessions)
    ensures Departures(Connected(st, socket, id, data), other, about)
         <= Departures(st, other, about) + if id == about then 1 else 0
  {
    var info := Registered(id, data);
    var hello := Hello(info, Infos(st.sessions));
    var greeted := Sent(st.inboxes, socket, hello);
    HasIdSnoc(st.sessions, Session(socket, info), about);
    BroadcastAt(greeted, st.sessions, None, Join(info), other);
    LeftsAfter(Inbox(st.inboxes, other), hello, about);
    LeftsAfter(Inbox(greeted, other), Join(info), about);
  }

  lemma {:induction false} UpdateDepartures(st: State, i: nat, data: ClientData, other: Socket, about: Id)
    requires Distinct(st.sessions) && i < |st.sessions|
    ensures Departures(Updated(st, i, data), other, about) <= Departures(st, other, about)
  {
    var from, info := st.sessions[i].socket, Merged(st.sessions[i].info, data);
    var sessions := st.sessions[i := Session(from, info)];
    BroadcastAt(st.inboxes, sessions, Some(from), Update(info), other);
    LeftsAfter(Inbox(st.inboxes, other), Update(info), about);
    if HasId(sessions, about) {
      var k :| 0 <= k < |sessions| && sessions[k].info.id == about;
      assert st.sessions[k].info.id == about;
    }
  }

  lemma {:induction false} CloseDepartures(st: State, socket: Socket, other: Socket, about: Id)
    requires Distinct(st.sessions)
    ensures Departures(Closed(st, socket), other, about) <= Departures(st, other, about)
  {
    var i := Position(st.sessions, socket);
    if i < |st.sessions| {
      var id := st.sessions[i].info.id;
      RemovedStaysDistinct(st.sessions, i);
      RemovedLosesId(st.sessions, i, about);
      BroadcastAt(st.inboxes, Removed(st.sessions, i), None, Left(id), other);
      LeftsAfter(Inbox(st.inboxes, other), Left(id), about);
      assert HasId(st.sessions, id);
    }
  }

  lemma {:induction false} RelayDepartures(st: State, target: Id, msg: ServerMsg, other: Socket, about: Id)
    requires msg.Offer? || msg.Answer?
    ensures Departures(Relayed(st, target, msg), other, about) == Departures(st, other, about)
  {
    LeftsAfter(Inbox(st.inboxes, other), msg, about);
  }

  lemma {:induction false} StepDepartures(st: State, event: Event, other: Socket, about: Id)
    requires Distinct(st.sessions)
    ensures Departures(Next(st, event), other, about)
         <= Departures(st, other, about) + if event.Connect? && event.id == about then 1 else 0
  {
    match event
    case Connect(socket, id, data) => ConnectDepartures(st, socket, id, data, other, about);
    case Close(socket) => CloseDepartures(st, socket, other, about);
    case Receive(socket, msg) =>
      var i := Position(st.sessions, socket);
      if i < |st.sessions| {
        match msg
        case UpdateInfo(None) =>
        case UpdateInfo(Some(data)) => UpdateDepartures(st, i, data, other, about);
        case MakeOffer(target, sessionId, sdp) =>
          RelayDepartures(st, target, Offer(st.sessions[i].info, sessionId, sdp), other, about);
        case MakeAnswer(target, sessionId, sdp) =>
          RelayDepartures(st, target, Answer(st.sessions[i].info, sessionId, sdp), other, about);
      }
  }

  /** However often `close` and `error` fire, no client is told more often
      that an id left than that id connected. */
  lemma {:induction false} OneLeftPerConnection(events: seq<Event>, socket: Socket, id: Id)
    requires IsRun(events)
    ensures Departures(After(events), socket, id) <= Connections(events, id)
  {
    if events != [] {
      var before := events[..|events| - 1];
      OneLeftPerConnection(before, socket, id);
      ViewsAreExact(before);
      StepDepartures(After(before), events[|events| - 1], socket, id);
    }
  }

  /** A socket without a session is sent nothing until it connects. */
  lemma {:induction false} NoSessionNoMessages(st: State, event: Event, socket: Socket)
    requires Distinct(st.sessions) && !HasSocket(st.sessions, socket) && (event.Connect? ==> event.socket != socket)
    ensures Inbox(Next(st, event).inboxes, socket) == Inbox(st.inboxes, socket)
  {
    match event
    case Connect(from, id, data) =>
      var info := Registered(id, data);
      BroadcastAt(Sent(st.inboxes, from, Hello(info, Infos(st.sessions))), st.sessions, None, Join(info), socket);
    case Close(from) =>
      var i := Position(st.sessions, from);
      if i < |st.sessions| {
        RemovedStaysDistinct(st.sessions, i);
        RemovedHas(st.sessions, i, socket);
        BroadcastAt(st.inboxes, Removed(st.sessions, i), None, Left(st.sessions[i].info.id), socket);
      }
    case Receive(from, msg) =>
      var i := Position(st.sessions, from);
      if i < |st.sessions| && msg.UpdateInfo? && msg.info.Some? {
        var info := Merged(st.sessions[i].info, msg.info.value);
        SameSockets(st.sessions, i, info, socket);
        BroadcastAt(st.inboxes, st.sessions[i := Session(st.sessions[i].socket, info)], Some(st.sessions[i].socket),
                    Update(info), socket);
      }
  }
}

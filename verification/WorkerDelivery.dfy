/** What the single-threaded signaling server has sent, read off the events alone. */
module WorkerDelivery {
  import opened Options
  import opened SignalingWorker
  import opened WorkerViews

  /** What the server knows of the client behind a socket: its registration and
      the updates since, until it closes. */
  function InfoNow(events: seq<Event>, socket: Socket): Option<ClientInfo> {
    if events == [] then None
    else InfoAfter(InfoNow(events[..|events| - 1], socket), events[|events| - 1], socket)
  }

  function InfoAfter(info: Option<ClientInfo>, event: Event, socket: Socket): Option<ClientInfo> {
    if event.socket != socket then info
    else match event
      case Connect(_, id, data) => Some(Registered(id, data))
      case Close(_) => None
      case Receive(_, msg) =>
        if info.Some? && msg.UpdateInfo? && msg.info.Some? then Some(Merged(info.value, msg.info.value)) else info
  }

  /** What one more event makes the server send to a socket. */
  function Sends(before: seq<Event>, event: Event, socket: Socket): seq<ServerMsg> {
    var self, other := InfoNow(before, socket), InfoNow(before, event.socket);
    match event
    case Connect(from, id, data) =>
      var info := Registered(id, data);
      if socket == from then [Hello(info, Infos(After(before).sessions))]
      else if self.Some? then [Join(info)]
      else []
    case Close(from) => if socket != from && self.Some? && other.Some? then [Left(other.value.id)] else []
    case Receive(from, msg) =>
      if self.None? || other.None? then []
      else match msg
        case UpdateInfo(None) => []
        case UpdateInfo(Some(data)) => if socket != from then [Update(Merged(other.value, data))] else []
        case MakeOffer(target, sessionId, sdp) =>
          if self.value.id == target then [Offer(other.value, sessionId, sdp)] else []
        case MakeAnswer(target, sessionId, sdp) =>
          if self.value.id == target then [Answer(other.value, sessionId, sdp)] else []
  }

  function AllSends(events: seq<Event>, socket: Socket): seq<ServerMsg> {
    if events == [] then []
    else
      var before := events[..|events| - 1];
      AllSends(before, socket) + Sends(before, events[|events| - 1], socket)
  }

  // ----- The sessions -----

  function InfoAt(sessions: seq<Session>, socket: Socket): Option<ClientInfo> {
    var i := Position(sessions, socket);
    if i < |sessions| then Some(sessions[i].info) else None
  }

  /** With distinct sockets any session of a socket is the one that is found. */
  lemma {:induction false} InfoAtIs(sessions: seq<Session>, i: nat)
    requires Distinct(sessions) && i < |sessions|
    ensures Position(sessions, sessions[i].socket) == i
    ensures InfoAt(sessions, sessions[i].socket) == Some(sessions[i].info)
  {
  }

  lemma {:induction false} HasSocketIfInfo(sessions: seq<Session>, socket: Socket)
    ensures HasSocket(sessions, socket) <==> InfoAt(sessions, socket).Some?
  {
  }

  lemma {:induction false} ConnectInfo(st: State, event: Event, socket: Socket)
    requires Distinct(st.sessions) && Allowed(st, event) && event.Connect?
    ensures InfoAt(Next(st, event).sessions, socket) == InfoAfter(InfoAt(st.sessions, socket), event, socket)
  {
    var session := Session(event.socket, Registered(event.id, event.data));
    DistinctSnoc(st.sessions, session);
    InfoAtIs(st.sessions + [session], |st.sessions|);
    if InfoAt(st.sessions, socket).Some? {
      InfoAtIs(st.sessions + [session], Position(st.sessions, socket));
    } else {
      HasSocketIfInfo(st.sessions, socket);
      HasSocketSnoc(st.sessions, session, socket);
      HasSocketIfInfo(st.sessions + [session], socket);
    }
  }

  lemma {:induction false} UpdateInfoAt(st: State, i: nat, data: ClientData, socket: Socket)
    requires Distinct(st.sessions) && i < |st.sessions|
    ensures InfoAt(Updated(st, i, data).sessions, socket)
            == if st.sessions[i].socket == socket then Some(Merged(st.sessions[i].info, data))
               else InfoAt(st.sessions, socket)
  {
    var after := Updated(st, i, data).sessions;
    assert Distinct(after);
    InfoAtIs(after, i);
    SameSockets(st.sessions, i, Merged(st.sessions[i].info, data), socket);
    HasSocketIfInfo(st.sessions, socket);
    HasSocketIfInfo(after, socket);
    if InfoAt(st.sessions, socket).Some? {
      InfoAtIs(after, Position(st.sessions, socket));
    }
  }

  lemma {:induction false} CloseInfo(st: State, i: nat, socket: Socket)
    requires Distinct(st.sessions) && i < |st.sessions|
    ensures InfoAt(Removed(st.sessions, i), socket)
            == if st.sessions[i].socket == socket then None else InfoAt(st.sessions, socket)
  {
    var after := Removed(st.sessions, i);
    RemovedStaysDistinct(st.sessions, i);
    RemovedHas(st.sessions, i, socket);
    HasSocketIfInfo(st.sessions, socket);
    HasSocketIfInfo(after, socket);
    if InfoAt(after, socket).Some? {
      var k := Position(after, socket);
      InfoAtIs(st.sessions, if k < i then k else k + 1);
    }
  }

  lemma {:induction false} StepInfo(st: State, event: Event, socket: Socket)
    requires Distinct(st.sessions) && Allowed(st, event)
    ensures InfoAt(Next(st, event).sessions, socket) == InfoAfter(InfoAt(st.sessions, socket), event, socket)
  {
    var i := Position(st.sessions, event.socket);
    match event
    case Connect(_, _, _) => ConnectInfo(st, event, socket);
    case Close(_) =>
      if i < |st.sessions| {
        CloseInfo(st, i, socket);
      }
    case Receive(_, msg) =>
      if i < |st.sessions| && msg.UpdateInfo? && msg.info.Some? {
        UpdateInfoAt(st, i, msg.info.value, socket);
      }
  }

  /** A client has a session while it is connected, with its latest data. */
  lemma {:induction false} SessionsAreCurrent(events: seq<Event>, socket: Socket)
    requires IsRun(events)
    ensures InfoAt(After(events).sessions, socket) == InfoNow(events, socket)
  {
    if events != [] {
      var before := events[..|events| - 1];
      SessionsAreCurrent(before, socket);
      ViewsAreExact(before);
      StepInfo(After(before), events[|events| - 1], socket);
    }
  }

  // ----- The messages -----

  lemma {:induction false} ConnectSends(before: seq<Event>, event: Event, socket: Socket)
    requires IsRun(before) && Distinct(After(before).sessions) && event.Connect? && Allowed(After(before), event)
    ensures Inbox(Next(After(before), event).inboxes, socket)
            == Inbox(After(before).inboxes, socket) + Sends(before, event, socket)
  {
    var st, info := After(before), Registered(event.id, event.data);
    var greeted := Sent(st.inboxes, event.socket, Hello(info, Infos(st.sessions)));
    SessionsAreCurrent(before, socket);
    HasSocketIfInfo(st.sessions, socket);
    BroadcastAt(greeted, st.sessions, None, Join(info), socket);
  }

  lemma {:induction false} CloseSends(before: seq<Event>, event: Event, socket: Socket)
    requires IsRun(before) && Distinct(After(before).sessions) && event.Close?
    ensures Inbox(Next(After(before), event).inboxes, socket)
            == Inbox(After(before).inboxes, socket) + Sends(before, event, socket)
  {
    var st := After(before);
    var i := Position(st.sessions, event.socket);
    SessionsAreCurrent(before, socket);
    SessionsAreCurrent(before, event.socket);
    if i < |st.sessions| {
      RemovedStaysDistinct(st.sessions, i);
      RemovedHas(st.sessions, i, socket);
      HasSocketIfInfo(st.sessions, socket);
      BroadcastAt(st.inboxes, Removed(st.sessions, i), None, Left(st.sessions[i].info.id), socket);
    }
  }

  lemma {:induction false} UpdateSends(before: seq<Event>, event: Event, socket: Socket)
    requires IsRun(before) && Distinct(After(before).sessions)
    requires event.Receive? && event.msg.UpdateInfo? && event.msg.info.Some?
    ensures Inbox(Next(After(before), event).inboxes, socket)
            == Inbox(After(before).inboxes, socket) + Sends(before, event, socket)
  {
    var st, data := After(before), event.msg.info.value;
    var i := Position(st.sessions, event.socket);
    SessionsAreCurrent(before, socket);
    SessionsAreCurrent(before, event.socket);
    if i < |st.sessions| {
      var info := Merged(st.sessions[i].info, data);
      SameSockets(st.sessions, i, info, socket);
      HasSocketIfInfo(st.sessions, socket);
      var sessions := Updated(st, i, data).sessions;
      assert Distinct(sessions);
      BroadcastAt(st.inboxes, sessions, Some(event.socket), Update(info), socket);
    }
  }

  /** A relay reaches the socket whose session has the target id, and no other. */
  lemma {:induction false} RelaySends(st: State, target: Id, msg: ServerMsg, socket: Socket)
    requires Distinct(st.sessions)
    ensures Inbox(Relayed(st, target, msg).inboxes, socket)
            == Inbox(st.inboxes, socket)
               + var self := InfoAt(st.sessions, socket);
                 if self.Some? && self.value.id == target then [msg] else []
  {
    var k, j := PositionOfId(st.sessions, target), Position(st.sessions, socket);
    if k < |st.sessions| {
      InfoAtIs(st.sessions, k);
      if j < |st.sessions| && j != k {
        assert st.sessions[j].info.id != st.sessions[k].info.id;
      }
    }
  }

  lemma {:induction false} StepSends(before: seq<Event>, event: Event, socket: Socket)
    requires IsRun(before) && Distinct(After(before).sessions) && Allowed(After(before), event)
    ensures Inbox(Next(After(before), event).inboxes, socket)
            == Inbox(After(before).inboxes, socket) + Sends(before, event, socket)
  {
    var st := After(before);
    SessionsAreCurrent(before, socket);
    SessionsAreCurrent(before, event.socket);
    match event
    case Connect(_, _, _) => ConnectSends(before, event, socket);
    case Close(_) => CloseSends(before, event, socket);
    case Receive(from, UpdateInfo(Some(_))) => UpdateSends(before, event, socket);
    case Receive(from, UpdateInfo(None)) =>
    case Receive(from, MakeOffer(target, sessionId, sdp)) =>
      if InfoNow(before, from).Some? {
        RelaySends(st, target, Offer(InfoNow(before, from).value, sessionId, sdp), socket);
      }
    case Receive(from, MakeAnswer(target, sessionId, sdp)) =>
      if InfoNow(before, from).Some? {
        RelaySends(st, target, Answer(InfoNow(before, from).value, sessionId, sdp), socket);
      }
  }

  /** In every run each socket has been sent exactly what the events call for,
      in order: a relay reaches its target alone, in the name and with the
      latest data of its sender. */
  lemma {:induction false} InboxIsWhatWasSent(events: seq<Event>, socket: Socket)
    requires IsRun(events)
    ensures Inbox(After(events).inboxes, socket) == AllSends(events, socket)
  {
    if events != [] {
      var before := events[..|events| - 1];
      InboxIsWhatWasSent(before, socket);
      ViewsAreExact(before);
      StepSends(before, events[|events| - 1], socket);
    }
  }
}
